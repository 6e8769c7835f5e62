/** What a cron field selects, and that the builder keeps it. */
module CronMeaning {
  import opened Text
  import opened Decimals
  import opened Cron

  /** A number or a name, as cron reads it. */
  function Atom(piece: string, name: FieldName): Option<nat> {
    if AllDigits(piece) then Some(DigitsValue(piece)) else NameValue(piece, name)
  }

  /** The values one list item covers: a value or a range. */
  function Item(token: string, name: FieldName): Option<(nat, nat)> {
    var pieces := Split(token, '-');
    var a, b := Atom(pieces[0], name), Atom(pieces[|pieces| - 1], name);
    if |pieces| <= 2 && a.Some? && b.Some? && InRange(a.value, name) && InRange(b.value, name) && a.value <= b.value
    then Some((a.value, b.value)) else None
  }

  predicate Covered(v: int, tokens: seq<string>, name: FieldName) {
    exists t :: t in tokens && Item(t, name).Some? && Item(t, name).value.0 <= v <= Item(t, name).value.1
  }

  predicate OnStep(v: int, n: nat, name: FieldName)
    requires n > 0
  {
    (v - Low(name)) % n == 0
  }

  predicate Between(v: int, a: nat, b: nat) { a <= v <= b }

  function StepSet(n: nat, name: FieldName): set<int>
    requires n > 0
  {
    set v | Low(name) <= v <= High(name) && OnStep(v, n, name)
  }

  /** The values a cron field selects; None if it is not of the simple kind. */
  function Meaning(raw: string, name: FieldName): Option<set<int>> {
    var s := Upper(raw);
    if s == "*" then Some(StepSet(1, name))
    else if IsStep(s) then
      var n := DigitsValue(s[2..]);
      if n < 1 then None else Some(StepSet(n, name))
    else
      var tokens := Split(s, ',');
      if exists t :: t in tokens && Item(t, name).None? then None
      else Some(set v | Low(name) <= v <= High(name) && Covered(v, tokens, name))
  }

  function SetOf(s: Shape, name: FieldName): set<int>
    requires s.Step? ==> s.n > 0
  {
    match s
    case Every => StepSet(1, name)
    case Step(n) => StepSet(n, name)
    case At(v) => {v}
    case Range(a, b) => set v | a <= v <= b && Between(v, a, b)
    case List(xs) => set x | x in xs :: x
  }

  // --------------------------------------------------- names and their pieces

  lemma {:induction false} JoinAbsent(ts: seq<string>, sep: char, c: char)
    requires c != sep && forall t :: t in ts ==> c !in t
    ensures c !in Join(ts, sep)
    decreases |ts|
  {
    if ts != [] {
      assert ts[0] in ts;
      JoinAbsent(ts[1..], sep, c);
    }
  }

  lemma MapPieceAbsent(piece: string, name: FieldName, c: char)
    requires c !in piece && !IsDigit(c)
    ensures c !in MapPiece(piece, name)
  {
    var slash := IndexOf(piece, '/');
    assert forall d :: d in piece[..slash] || d in piece[slash..] ==> d in piece;
  }

  lemma PartsAbsent(s: string, sep: char, c: char)
    requires c !in s || c == sep
    ensures forall t :: t in Split(s, sep) ==> c !in t
  {
    if c == sep { SplitClean(s, sep); } else { SplitContains(s, sep, c); }
  }

  lemma TokenPieces(token: string, name: FieldName)
    ensures Split(MapToken(token, name), '-') == MapPieces(Split(token, '-'), name)
    ensures ',' !in token ==> ',' !in MapToken(token, name)
  {
    var pieces := Split(token, '-');
    var mapped := MapPieces(pieces, name);
    PartsAbsent(token, '-', '-');
    forall t | t in mapped ensures '-' !in t {
      var i :| 0 <= i < |mapped| && mapped[i] == t;
      assert pieces[i] in pieces;
      MapPieceAbsent(pieces[i], name, '-');
    }
    JoinThenSplit(mapped, '-');
    if ',' !in token {
      PartsAbsent(token, '-', ',');
      forall t | t in mapped ensures ',' !in t {
        var i :| 0 <= i < |mapped| && mapped[i] == t;
        assert pieces[i] in pieces;
        MapPieceAbsent(pieces[i], name, ',');
      }
      JoinAbsent(mapped, '-', ',');
    }
  }

  lemma UnnamedToken(token: string, name: FieldName)
    requires Table(name) == []
    ensures MapToken(token, name) == token
  {
    var pieces := Split(token, '-');
    forall i | 0 <= i < |pieces| ensures MapPiece(pieces[i], name) == pieces[i] {
      var slash := IndexOf(pieces[i], '/');
      assert pieces[i][..slash] + pieces[i][slash..] == pieces[i];
    }
    assert MapPieces(pieces, name) == pieces;
    SplitThenJoin(token, '-');
  }

  /** Normalising maps a field token by token. */
  lemma NormalTokens(raw: string, name: FieldName)
    ensures Split(NormalizeNames(raw, name), ',') == MapTokens(Split(Upper(raw), ','), name)
  {
    var tokens := Split(Upper(raw), ',');
    var mapped := MapTokens(tokens, name);
    if name != Month && name != DayOfWeek {
      forall i | 0 <= i < |tokens| ensures mapped[i] == tokens[i] { UnnamedToken(tokens[i], name); }
      assert mapped == tokens;
    } else {
      PartsAbsent(Upper(raw), ',', ',');
      forall t | t in mapped ensures ',' !in t {
        var i :| 0 <= i < |mapped| && mapped[i] == t;
        assert tokens[i] in tokens;
        TokenPieces(tokens[i], name);
      }
      JoinThenSplit(mapped, ',');
    }
  }

  lemma SplitsAlone(s: string, sep: char)
    ensures sep !in s ==> Split(s, sep) == [s]
    ensures |Split(s, sep)| == 1 ==> Split(s, sep) == [s]
  {
    SplitThenJoin(s, sep);
  }

  lemma OneToken(raw: string, name: FieldName)
    requires ',' !in NormalizeNames(raw, name)
    ensures Split(Upper(raw), ',') == [Upper(raw)] && MapToken(Upper(raw), name) == NormalizeNames(raw, name)
  {
    var s := NormalizeNames(raw, name);
    NormalTokens(raw, name);
    SplitsAlone(s, ',');
    SplitsAlone(Upper(raw), ',');
    assert MapTokens([Upper(raw)], name)[0] == s;
  }

  lemma OnePiece(token: string, name: FieldName)
    requires '-' !in MapToken(token, name)
    ensures Split(token, '-') == [token] && MapPiece(token, name) == MapToken(token, name)
  {
    TokenPieces(token, name);
    SplitsAlone(MapToken(token, name), '-');
    SplitsAlone(token, '-');
    assert MapPieces([token], name)[0] == MapToken(token, name);
  }

  lemma MapPieceKeepsSlash(piece: string, name: FieldName)
    ensures '/' in MapPiece(piece, name) || MapPiece(piece, name) ==
              if NameValue(piece, name).Some? then Decimal(NameValue(piece, name).value) else piece
  {
    var slash := IndexOf(piece, '/');
    if slash < |piece| {
      assert piece[slash..][0] == '/';
    } else {
      assert piece[..slash] == piece && piece[slash..] == "";
    }
  }

  /** A piece that maps to a number stands for that number. */
  lemma AtomOf(piece: string, name: FieldName)
    requires AllDigits(MapPiece(piece, name))
    ensures Atom(piece, name) == Some(DigitsValue(MapPiece(piece, name)))
  {
    var m := MapPiece(piece, name);
    MapPieceKeepsSlash(piece, name);
    var v := NameValue(piece, name);
    if v.Some? {
      DecimalValue(v.value);
      NamesAreLetters(piece, name);
      assert piece[0] in piece;
    }
  }

  /** A token that maps to a number covers just that number. */
  lemma NumberItem(token: string, name: FieldName)
    requires AllDigits(MapToken(token, name)) && InRange(DigitsValue(MapToken(token, name)), name)
    ensures var v := DigitsValue(MapToken(token, name)); Item(token, name) == Some((v, v))
  {
    DigitsArePlain(MapToken(token, name));
    OnePiece(token, name);
    AtomOf(token, name);
  }

  lemma StepIsPlain(s: string)
    requires s == "*" || IsStep(s)
    ensures Plain(s) && '-' !in s && ',' !in s
  {
    if IsStep(s) {
      DigitsArePlain(s[2..]);
      assert s == "*/" + s[2..];
    }
  }

  /** A name is replaced by digits. */
  lemma MapPieceHead(piece: string, name: FieldName)
    ensures var left := piece[..IndexOf(piece, '/')];
            var m := MapPiece(piece, name);
            NameValue(left, name).Some? ==> m != "" && IsDigit(m[0])
    ensures NameValue(piece[..IndexOf(piece, '/')], name).None? ==> MapPiece(piece, name) == piece
  {
    var slash := IndexOf(piece, '/');
    var v := NameValue(piece[..slash], name);
    if v.Some? {
      assert Decimal(v.value)[0] in Decimal(v.value);
    } else {
      assert piece[..slash] + piece[slash..] == piece;
    }
  }

  lemma StarPiece(piece: string, name: FieldName)
    requires MapPiece(piece, name) != "" && MapPiece(piece, name)[0] == '*'
    ensures MapPiece(piece, name) == piece
  {
    MapPieceHead(piece, name);
  }

  /** Names never make or hide a star. */
  lemma StarsStay(raw: string, name: FieldName)
    ensures var s, u := NormalizeNames(raw, name), Upper(raw);
            s == "*" || IsStep(s) || u == "*" || IsStep(u) ==> s == u
  {
    var s, u := NormalizeNames(raw, name), Upper(raw);
    if u == "*" || IsStep(u) {
      StepIsPlain(u);
      PlainIsNormal(u, raw, name);
    } else if s == "*" || IsStep(s) {
      StepIsPlain(s);
      OneToken(raw, name);
      OnePiece(u, name);
      StarPiece(u, name);
    }
  }

  // ------------------------------------------------- parsing keeps the meaning

  lemma OneItem(raw: string, name: FieldName, a: nat, b: nat)
    requires Upper(raw) != "*" && !IsStep(Upper(raw)) && Split(Upper(raw), ',') == [Upper(raw)]
    requires Item(Upper(raw), name) == Some((a, b))
    ensures Meaning(raw, name) == Some(SetOf(Range(a, b), name))
  {
    var tokens := [Upper(raw)];
    var s := set v | Low(name) <= v <= High(name) && Covered(v, tokens, name);
    assert tokens[0] in tokens && forall t :: t in tokens ==> t == Upper(raw);
    forall v ensures v in s <==> v in SetOf(Range(a, b), name) {
      assert Between(v, a, b) <==> a <= v <= b;
    }
    assert s == SetOf(Range(a, b), name);
  }

  lemma AtMeaning(raw: string, name: FieldName)
    requires var s := NormalizeNames(raw, name); AllDigits(s) && InRange(DigitsValue(s), name)
    ensures Meaning(raw, name) == Some(SetOf(At(DigitsValue(NormalizeNames(raw, name))), name))
  {
    var s := NormalizeNames(raw, name);
    var v := DigitsValue(s);
    DigitsArePlain(s);
    StarsStay(raw, name);
    OneToken(raw, name);
    NumberItem(Upper(raw), name);
    assert s[0] in s;
    OneItem(raw, name, v, v);
    assert SetOf(Range(v, v), name) == {v};
  }

  lemma RangeMeaning(raw: string, name: FieldName)
    requires var s := NormalizeNames(raw, name); |Split(s, '-')| == 2 && AreNumbers(Split(s, '-'))
    requires var ends := Numbers(Split(NormalizeNames(raw, name), '-')); AllInRange(ends, name) && ends[0] <= ends[1]
    ensures var ends := Numbers(Split(NormalizeNames(raw, name), '-'));
            Meaning(raw, name) == Some(SetOf(Range(ends[0], ends[1]), name))
  {
    var s, u := NormalizeNames(raw, name), Upper(raw);
    var parts := Split(s, '-');
    var ends := Numbers(parts);
    RangeIsNoStar(s);
    OneToken(raw, name);
    TokenPieces(u, name);
    var pieces := Split(u, '-');
    assert |MapPieces(pieces, name)| == 2;
    assert MapPiece(pieces[0], name) == parts[0] && MapPiece(pieces[1], name) == parts[1];
    assert parts[0] in parts && parts[1] in parts;
    AtomOf(pieces[0], name);
    AtomOf(pieces[1], name);
    assert ends[0] in ends && ends[1] in ends;
    StarsStay(raw, name);
    OneItem(raw, name, ends[0], ends[1]);
  }

  lemma RangeIsNoStar(s: string)
    requires |Split(s, '-')| == 2 && AreNumbers(Split(s, '-'))
    ensures ',' !in s && s != "*" && !IsStep(s)
  {
    var parts := Split(s, '-');
    forall t | t in parts ensures ',' !in t && '*' !in t { DigitsArePlain(t); }
    JoinAbsent(parts, '-', ',');
    JoinAbsent(parts, '-', '*');
    SplitThenJoin(s, '-');
    assert forall i :: 0 <= i < |s| ==> s[i] in s;
  }

  lemma ListMeaning(raw: string, name: FieldName)
    requires var parts := Split(NormalizeNames(raw, name), ',');
             |parts| >= 2 && AreNumbers(parts) && AllInRange(Numbers(parts), name)
    ensures var xs := Numbers(Split(NormalizeNames(raw, name), ','));
            Meaning(raw, name) == Some(SetOf(List(xs), name))
  {
    var s, u := NormalizeNames(raw, name), Upper(raw);
    var parts, tokens := Split(s, ','), Split(u, ',');
    var xs := Numbers(parts);
    NormalTokens(raw, name);
    forall i | 0 <= i < |tokens| ensures Item(tokens[i], name) == Some((xs[i], xs[i])) {
      assert parts[i] == MapToken(tokens[i], name) && parts[i] in parts && xs[i] in xs;
      NumberItem(tokens[i], name);
    }
    ListIsNoStar(u);
    ItemsCover(tokens, xs, name);
  }

  lemma ListIsNoStar(u: string)
    requires |Split(u, ',')| >= 2
    ensures u != "*" && !IsStep(u)
  {
    if u == "*" || IsStep(u) {
      StepIsPlain(u);
      SplitsAlone(u, ',');
    }
  }

  lemma CoveredIff(v: int, tokens: seq<string>, xs: seq<nat>, name: FieldName)
    requires |tokens| == |xs|
    requires forall i :: 0 <= i < |tokens| ==> Item(tokens[i], name) == Some((xs[i], xs[i]))
    ensures Covered(v, tokens, name) <==> v in xs
  {
    if v in xs {
      var i :| 0 <= i < |xs| && xs[i] == v;
      assert tokens[i] in tokens;
    }
    if Covered(v, tokens, name) {
      var t :| t in tokens && Item(t, name).Some? && Item(t, name).value.0 <= v <= Item(t, name).value.1;
      var i :| 0 <= i < |tokens| && tokens[i] == t;
      assert xs[i] == v;
    }
  }

  lemma ItemsCover(tokens: seq<string>, xs: seq<nat>, name: FieldName)
    requires |tokens| == |xs| && AllInRange(xs, name)
    requires forall i :: 0 <= i < |tokens| ==> Item(tokens[i], name) == Some((xs[i], xs[i]))
    ensures forall t :: t in tokens ==> Item(t, name).Some?
    ensures (set v | Low(name) <= v <= High(name) && Covered(v, tokens, name)) == SetOf(List(xs), name)
  {
    forall v ensures Covered(v, tokens, name) <==> v in xs {
      CoveredIff(v, tokens, xs, name);
    }
  }

  /** What an accepted field selects is what was recognised in it. */
  lemma RecognizedMeaning(raw: string, name: FieldName, shape: Shape)
    requires Recognize(NormalizeNames(raw, name)) == Some(shape) && Accepts(shape, name)
    ensures Meaning(raw, name) == Some(SetOf(shape, name))
  {
    var s := NormalizeNames(raw, name);
    match shape
    case Every => StarsStay(raw, name);
    case Step(n) => StarsStay(raw, name);
    case At(v) => AtMeaning(raw, name);
    case Range(a, b) =>
      var ends := Numbers(Split(s, '-'));
      assert ends == [a, b];
      RangeMeaning(raw, name);
    case List(xs) => ListMeaning(raw, name);
  }

  lemma ShownMeaning(shape: Shape, name: FieldName)
    requires Canonical(shape, name)
    ensures Meaning(Show(shape), name) == Some(SetOf(shape, name))
  {
    ShownParses(shape, name);
    PlainIsUpper(Show(shape));
    PlainIsNormal(Show(shape), Show(shape), name);
    RecognizedMeaning(Show(shape), name, shape);
  }

  lemma ListShape(xs: seq<nat>, name: FieldName, num: Conversion)
    requires xs != [] && AllInRange(xs, name)
    ensures SetOf(ShapeOf(FieldOf(List(xs), name, num), name), name) == SetOf(List(xs), name)
  {
    var ns := Finites(xs);
    var ys := SortUnique(ns, name);
    SortUniqueMembers(ns, name);
    forall x: nat ensures x in ys <==> x in xs { ClampedMembers(xs, name, x); }
    assert xs[0] in ys;
    assert |ys| == 1 ==> ys == [ys[0]];
    var shape := ShapeOf(FieldOf(List(xs), name, num), name);
    forall v ensures v in SetOf(shape, name) <==> v in SetOf(List(xs), name) {
    }
  }

  // ------------------------------------------------------------ 32-bit steps

  lemma OnlyLowest(v: int, n: nat, name: FieldName)
    requires InRange(v, name) && n > High(name) - Low(name)
    ensures OnStep(v, n, name) <==> v == Low(name)
  {
    assert (v - Low(name)) % n == v - Low(name);
  }

  lemma FirstStep(n: nat, name: FieldName)
    requires n > 0
    ensures OnStep(Low(name) + n, n, name)
  {
  }

  /** A step selects the lowest value alone exactly when it exceeds the span. */
  lemma WideStep(n: nat, name: FieldName)
    requires n > 0
    ensures StepSet(n, name) == {Low(name) as int} <==> n > High(name) - Low(name)
  {
    if n > High(name) - Low(name) {
      forall v | InRange(v, name) ensures OnStep(v, n, name) <==> v == Low(name) {
        OnlyLowest(v, n, name);
      }
    } else {
      FirstStep(n, name);
      assert Low(name) + n in StepSet(n, name);
    }
  }

  /** Cutting the stored step to 32 bits leaves the selected values alone. */
  predicate StepSurvives(f: Field, name: FieldName) {
    f.mode == "everyN" ==>
      (f.step.Finite? && f.step.v < 2147483648.0) || ToInt32(f.step) > High(name) - Low(name)
  }

  lemma SmallStep(n: nat)
    requires 1 <= n < 0x8000_0000
    ensures ToInt32(Finite(n as real)) == n
  {
  }

  /** Whatever the conversion made of a written step, it is small exactly if the
      written one is. */
  lemma StoredStep(n: nat, num: Conversion)
    requires IsParseInt(num)
    ensures num(n).Finite? && num(n).v < 2147483648.0 <==> n < 0x8000_0000
    ensures n < 0x8000_0000 ==> num(n) == Finite(n as real)
  {
    assert n <= 0x20_0000_0000_0000 ==> num(n) == Finite(n as real);
  }

  lemma CutStep(n: nat, name: FieldName, num: Conversion)
    requires n >= 1 && IsParseInt(num)
    ensures var f := FieldOf(Step(n), name, num);
            SetOf(ShapeOf(f, name), name) == SetOf(Step(n), name) <==> StepSurvives(f, name)
  {
    var f := FieldOf(Step(n), name, num);
    StoredStep(n, num);
    if n < 0x8000_0000 {
      SmallStep(n);
    } else {
      WideStep(n, name);
      WideStep(ShapeOf(f, name).n, name);
    }
  }

  lemma StoredShape(shape: Shape, name: FieldName, num: Conversion)
    requires Accepts(shape, name) && IsParseInt(num)
    ensures var f := FieldOf(shape, name, num);
            SetOf(ShapeOf(f, name), name) == SetOf(shape, name) <==> StepSurvives(f, name)
  {
    match shape
    case Every =>
    case Step(n) => CutStep(n, name, num);
    case At(v) => ClampInRange(v, name);
    case Range(a, b) =>
      ClampInRange(a, name);
      ClampInRange(b, name);
    case List(xs) => ListShape(xs, name, num);
  }

  // ------------------------------------------- what fields and names select

  predicate StepsTo(v: int, k: nat, n: nat, name: FieldName) { v == Low(name) + k * n }

  /** A step counts from the lowest value of the field. */
  lemma StepSelects(v: int, n: nat, name: FieldName)
    requires n > 0
    ensures v in StepSet(n, name) <==> InRange(v, name) && exists k: nat :: StepsTo(v, k, n, name)
  {
    if v in StepSet(n, name) {
      var k := (v - Low(name)) / n;
      assert v - Low(name) == k * n;
      assert StepsTo(v, k, n, name);
    }
    if k: nat :| StepsTo(v, k, n, name) {
      MultipleModulo(k, n);
    }
  }

  lemma AtLeastOnce(a: int, n: nat)
    requires a >= 1 && n > 0
    ensures a * n >= n
  {
  }

  lemma MultipleModulo(k: nat, n: nat)
    requires n > 0
    ensures (k * n) % n == 0
  {
    var q, r := (k * n) / n, (k * n) % n;
    assert k * n == q * n + r;
    assert (k - q) * n == r && (q - k) * n == 0 - r;
    if k > q { AtLeastOnce(k - q, n); }
    if k < q { AtLeastOnce(q - k, n); }
  }

  /** What a built field selects, whatever the state: a value, all between two
      ends in either order, the listed values or all if none is, every n-th, or
      all. */
  lemma BuiltSelects(f: Field, name: FieldName, v: int)
    ensures
      var built := Meaning(FieldToString(f, name), name);
      built.Some? &&
      (v in built.value <==>
       InRange(v, name) &&
       if f.mode == "at" then v == Clamp(f.value, name)
       else if f.mode == "range" then
         Clamp(f.rangeFrom, name) <= v <= Clamp(f.rangeTo, name) ||
         Clamp(f.rangeTo, name) <= v <= Clamp(f.rangeFrom, name)
       else if f.mode == "list" then f.list == [] || exists n :: n in f.list && Clamp(n, name) == v
       else f.mode == "everyN" ==> OnStep(v, if ToInt32(f.step) < 1 then 1 else ToInt32(f.step), name))
  {
    ShapesAreCanonical(f, name);
    ShownMeaning(ShapeOf(f, name), name);
    ShapeSelects(f, name, v);
  }

  lemma ShapeSelects(f: Field, name: FieldName, v: int)
    ensures
      v in SetOf(ShapeOf(f, name), name) <==>
      InRange(v, name) &&
      if f.mode == "at" then v == Clamp(f.value, name)
      else if f.mode == "range" then
        Clamp(f.rangeFrom, name) <= v <= Clamp(f.rangeTo, name) ||
        Clamp(f.rangeTo, name) <= v <= Clamp(f.rangeFrom, name)
      else if f.mode == "list" then f.list == [] || exists n :: n in f.list && Clamp(n, name) == v
      else f.mode == "everyN" ==> OnStep(v, if ToInt32(f.step) < 1 then 1 else ToInt32(f.step), name)
  {
    if f.mode == "list" {
      ListSelects(f.list, name, v);
    }
  }

  lemma ListSelects(ns: seq<Num>, name: FieldName, v: int)
    ensures var xs := SortUnique(ns, name);
            (xs == [] <==> ns == []) && (v in xs <==> exists n :: n in ns && Clamp(n, name) == v) &&
            (|xs| == 1 ==> (v in xs <==> v == xs[0]))
  {
    var xs := SortUnique(ns, name);
    SortUniqueMembers(ns, name);
    if ns != [] {
      assert ns[0] in ns;
      assert Clamp(ns[0], name) in xs;
    }
    assert v in xs ==> v >= 0;
  }

  /** The months count from one. */
  lemma MonthNumber(i: nat)
    requires i < 12
    ensures
      var names := ["JAN", "FEB", "MAR", "APR", "MAY", "JUN", "JUL", "AUG", "SEP", "OCT", "NOV", "DEC"];
      NameValue(names[i], Month) == Some(i + 1)
  {
    assert MONTHS[i] in MONTHS;
    assert forall j, k :: 0 <= j < k < 12 ==> MONTHS[j] != MONTHS[k];
  }

  /** The weekdays count from zero, Sunday. */
  lemma DayNumber(i: nat)
    requires i < 7
    ensures
      var names := ["SUN", "MON", "TUE", "WED", "THU", "FRI", "SAT"];
      NameValue(names[i], DayOfWeek) == Some(i)
  {
    assert DAYS[i] in DAYS;
    assert forall j, k :: 0 <= j < k < 7 ==> DAYS[j] != DAYS[k];
  }

  lemma CaseIsIgnored()
    ensures Upper("mon") == Upper("Mon") == "MON"
  {
  }

  /** A field that is just a name is stored as its number and selects it. */
  lemma NameIsItsNumber(raw: string, name: FieldName, v: nat, num: Conversion)
    requires name == Month || name == DayOfWeek
    requires NameValue(Upper(raw), name) == Some(v) && InRange(v, name)
    requires '/' !in Upper(raw) && '-' !in Upper(raw) && ',' !in Upper(raw)
    ensures ParseField(raw, name, num) == Some(FieldOf(At(v), name, num))
    ensures Meaning(raw, name) == Some({v as int})
  {
    var u := Upper(raw);
    IndexOfAbsent(u, '/');
    SplitsAlone(u, ',');
    SplitsAlone(u, '-');
    assert u[..|u|] == u && u[|u|..] == "" && Decimal(v) + "" == Decimal(v);
    assert MapPieces([u], name) == [Decimal(v)];
    assert MapTokens([u], name) == [Decimal(v)];
    assert NormalizeNames(raw, name) == Decimal(v);
    DecimalValue(v);
    DigitsArePlain(Decimal(v));
    NoStarNoStep(Decimal(v));
    RecognizedMeaning(raw, name, At(v));
  }

  /** Rebuilding an accepted field keeps what it selects, across names, case,
      leading zeros, order and duplicates, exactly when its stored step survives
      the cut, however large the written step is. */
  lemma RebuiltMeansTheSameIff(raw: string, name: FieldName, f: Field, num: Conversion)
    requires IsParseInt(num) && ParseField(raw, name, num) == Some(f)
    ensures Meaning(FieldToString(f, name), name) == Meaning(raw, name) <==> StepSurvives(f, name)
  {
    var shape := Recognize(NormalizeNames(raw, name)).value;
    RecognizedMeaning(raw, name, shape);
    StoredShape(shape, name, num);
    ShapesAreCanonical(f, name);
    ShownMeaning(ShapeOf(f, name), name);
  }

  /** The same for a whole expression. */
  lemma RebuiltCronMeansTheSame(str: string, num: Conversion)
    requires IsParseInt(num) && ParsedCron(str, num).Some?
    ensures var state := ParsedCron(str, num).value;
            |Words(BuildCron(state))| == 5 &&
            forall i :: 0 <= i < 5 ==>
              (Meaning(Words(BuildCron(state))[i], NAMES[i]) == Meaning(Words(str)[i], NAMES[i])
               <==> StepSurvives(state[i], NAMES[i]))
  {
    var state := ParsedCron(str, num).value;
    BuiltWords(state);
    forall i | 0 <= i < 5
      ensures Meaning(BuiltFields(state)[i], NAMES[i]) == Meaning(Words(str)[i], NAMES[i])
              <==> StepSurvives(state[i], NAMES[i])
    {
      RebuiltMeansTheSameIff(Words(str)[i], NAMES[i], state[i], num);
    }
  }

  lemma WrittenStepParses(n: nat, name: FieldName, num: Conversion)
    requires n >= 1
    ensures ParseField(Show(Step(n)), name, num) == Some(FieldOf(Step(n), name, num))
  {
    var raw := Show(Step(n));
    ShownStep(n);
    PlainIsUpper(raw);
    PlainIsNormal(raw, raw, name);
  }

  lemma CutBelowOne(n: nat, name: FieldName, num: Conversion)
    requires n >= 1 && IsParseInt(num) && ToInt32(num(n)) < 1
    ensures var f := FieldOf(Step(n), name, num); ShapeOf(f, name) == Step(1) && !StepSurvives(f, name)
  {
    StoredStep(n, num);
    if n < 0x8000_0000 { SmallStep(n); }
  }

  /** The accepted steps that collapse: the lowest value alone before, every
      value after. */
  lemma CollapsedSteps(n: nat, name: FieldName, num: Conversion, f: Field)
    requires n >= 1 && IsParseInt(num) && ToInt32(num(n)) < 1 && f == FieldOf(Step(n), name, num)
    ensures ParseField(Show(Step(n)), name, num) == Some(f) && ShapeOf(f, name) == Step(1)
    ensures Meaning(FieldToString(f, name), name) != Meaning(Show(Step(n)), name)
  {
    WrittenStepParses(n, name, num);
    CutBelowOne(n, name, num);
    RebuiltMeansTheSameIff(Show(Step(n)), name, f, num);
  }

  /** Such steps are 2^31, any that rounds to 2^56, and any that overflows. */
  lemma CollapsedStepExamples(num: Conversion, n: nat)
    requires IsParseInt(num)
    ensures ToInt32(num(0x8000_0000)) < 1
    ensures num(n) == Finite(72057594037927936.0) || num(n) == NotFinite ==> ToInt32(num(n)) < 1
  {
  }
}
