/** The template scanner (internal/rule/template.go). `resolve` stands for what a
    variable or system function renders to; it is fixed within one rendering.
    Go indexes bytes where this indexes characters; braces and the characters of
    a variable name are single bytes, so the scanner sees the same structure. */
module Template {
  import opened Text

  type Resolver = string -> string

  const MAX_DEPTH: nat := 10

  // ------------------------------------------------------------- the scanner

  /** Position in `t` at which `balance` open braces are closed; `|t|` if never. */
  function Close(t: string, balance: nat): (e: nat)
    requires balance > 0
    ensures e <= |t|
    ensures e < |t| ==> t[e] == '}'
  {
    if t == "" then 0
    else if t[0] == '}' && balance == 1 then 0
    else 1 + Close(t[1..], Opened(t[0], balance))
  }

  /** The balance after one more character. */
  function Opened(c: char, balance: nat): nat {
    if c == '{' then balance + 1 else if c == '}' && balance > 0 then balance - 1 else balance
  }

  predicate IsVariableChar(c: char) {
    'a' <= c <= 'z' || 'A' <= c <= 'Z' || '0' <= c <= '9' || c == '_' || c == '.' || c == ':' || c == '('
    || c == ')' || c == '=' || c == '/' || c == '-' || c == '@' || c == ','

  }

  predicate ValidChars(t: string) {
    if t == "" then true
    else if t[0] == '{' then
      var e := 1 + Close(t[1..], 1);
      e < |t| && ValidChars(t[e + 1..])
    else IsVariableChar(t[0]) && ValidChars(t[1..])
  }

  /** What counts as a variable rather than as text: nested blocks are skipped. */
  predicate ValidStructure(t: string) { t != "" && ValidChars(t) }

  /** Where the variable reference at the start of `t` ends; `|t|` if none is there. */
  function RefEnd(t: string): (e: nat)
    ensures e <= |t| && (t != "" ==> 0 < e)
  {
    if t == "" || t[0] != '{' then |t|
    else
      var e := 1 + Close(t[1..], 1);
      if e < |t| && ValidStructure(t[1..e]) then e else |t|
  }

  function Cat(a: Option<string>, b: Option<string>): Option<string> {
    if a.Some? && b.Some? then Some(a.value + b.value) else None
  }

  /** What `{content}` is replaced by. */
  type Values = string -> Option<string>

  /** Rendering of `t`, `cut` telling where a reference at the start of a text
      ends. None is the depth error. */
  function RenderBy(t: string, cut: string -> nat, value: Values): Option<string>
    decreases |t|
  {
    if t == "" then Some("")
    else
      var e := cut(t);
      if 0 < e < |t| then Cat(value(t[1..e]), RenderBy(t[e + 1..], cut, value))
      else Cat(Some([t[0]]), RenderBy(t[1..], cut, value))
  }

  function Render(t: string, value: Values): Option<string> { RenderBy(t, RefEnd, value) }

  /** The value of `{content}` at a nesting depth: inner variables are rendered
      first, one level deeper. */
  function Variable(content: string, depth: nat, resolve: Resolver): Option<string>
    decreases MAX_DEPTH - depth, 0
  {
    var name :=
      if '{' !in content then Some(content)
      else if depth + 1 > MAX_DEPTH then None
      else Render(content, ValuesAt(depth + 1, resolve));
    if name.Some? then Some(resolve(name.value)) else None
  }

  function ValuesAt(depth: nat, resolve: Resolver): Values
    decreases MAX_DEPTH - depth, 1
  {
    content => Variable(content, depth, resolve)
  }

  function Parse(t: string, depth: nat, resolve: Resolver): Option<string> {
    if depth > MAX_DEPTH then None else Render(t, ValuesAt(depth, resolve))
  }

  function Execute(template: string, resolve: Resolver): Option<string> {
    if '{' !in template then Some(template) else Parse(template, 0, resolve)
  }

  // --------------------------------------------------- the loops of the source

  method FindClosingBrace(s: string, i: nat) returns (e: nat)
    requires i < |s|
    ensures e == i + 1 + Close(s[i + 1..], 1)
  {
    var balance := 1;
    for j := i + 1 to |s|
      invariant balance > 0
      invariant Close(s[i + 1..], 1) == j - i - 1 + Close(s[j..], balance)
    {
      assert s[j..][1..] == s[j + 1..];
      if s[j] == '{' {
        balance := balance + 1;
      } else if s[j] == '}' {
        balance := balance - 1;
      }
      if balance == 0 {
        return j;
      }
    }
    return |s|;
  }

  method IsValidTemplateStructure(s: string) returns (ok: bool)
    ensures ok <==> ValidStructure(s)
  {
    if |s| == 0 {
      return false;
    }
    var i := 0;
    assert s[0..] == s;
    while i < |s|
      invariant 0 <= i <= |s|
      invariant ValidChars(s) <==> ValidChars(s[i..])
    {
      assert s[i..][1..] == s[i + 1..];
      if s[i] == '{' {
        var e := FindClosingBrace(s, i);
        if e == |s| {
          return false;
        }
        assert s[i..][e - i + 1..] == s[e + 1..];
        i := e;
      } else if s[i] == '}' {
        return false;
      } else if !IsVariableChar(s[i]) {
        return false;
      }
      i := i + 1;
    }
    return true;
  }

  /** Where the reference at position `i` ends; `|s|` if there is none. */
  method ReferenceAt(s: string, i: nat, ghost cut: string -> nat) returns (e: nat)
    requires i < |s| && cut == RefEnd
    ensures i < e <= |s| && e == i + cut(s[i..])
  {
    ghost var t := s[i..];
    if s[i] != '{' {
      return |s|;
    }
    e := FindClosingBrace(s, i);
    assert t[1..] == s[i + 1..] && t[1..e - i] == s[i + 1..e];
    if e < |s| {
      var valid := IsValidTemplateStructure(s[i + 1..e]);
      if !valid {
        return |s|;
      }
    }
  }

  /** One turn of the scanner's loop at position `i`. */
  ghost predicate Turn(s: string, i: nat, cut: string -> nat, value: Values, rest: seq<Option<string>>)
    requires i < |s| && |rest| == |s| + 1
  {
    var k := cut(s[i..]);
    var e := i + k;
    rest[i] == if 0 < k && e < |s| then Cat(value(s[i + 1..e]), rest[e + 1]) else Cat(Some([s[i]]), rest[i + 1])
  }

  ghost predicate Turns(s: string, cut: string -> nat, value: Values, rest: seq<Option<string>>) {
    |rest| == |s| + 1 && rest[|s|] == Some("") &&
    forall i {:trigger Turn(s, i, cut, value, rest)} :: 0 <= i < |s| ==> Turn(s, i, cut, value, rest)
  }

  /** What remains to be rendered from each position on. */
  lemma Remainders(s: string, cut: string -> nat, value: Values) returns (rest: seq<Option<string>>)
    ensures Turns(s, cut, value, rest) && rest[0] == RenderBy(s, cut, value)
  {
    rest := seq(|s| + 1, i requires 0 <= i <= |s| => RenderBy(s[i..], cut, value));
    assert s[0..] == s;
    forall i | 0 <= i < |s| ensures Turn(s, i, cut, value, rest) {
      var t := s[i..];
      var k := cut(t);
      assert t[1..] == s[i + 1..];
      if 0 < k < |t| {
        assert t[1..k] == s[i + 1..i + k] && t[k + 1..] == s[i + k + 1..];
      }
    }
  }

  /** The value of one reference: inner variables first. */
  method ResolveReference(content: string, depth: nat, resolve: Resolver, ghost value: Values)
    returns (v: Option<string>)
    requires depth <= MAX_DEPTH && value == ValuesAt(depth, resolve)
    ensures v == value(content)
    decreases |content|, 2
  {
    if '{' !in content {
      return Some(resolve(content));
    }
    var inner := ParseRecursive(content, depth + 1, resolve);
    return if inner.Some? then Some(resolve(inner.value)) else None;
  }

  /** What one turn does to the output so far. */
  lemma TakeTurn(s: string, i: nat, cut: string -> nat, value: Values, rest: seq<Option<string>>, sb: string)
    requires i < |s| && Turns(s, cut, value, rest) && rest[0] == Cat(Some(sb), rest[i])
    ensures var k := cut(s[i..]);
            var e := i + k;
            rest[0] ==
            if k == 0 || e >= |s| then Cat(Some(sb + [s[i]]), rest[i + 1])
            else if value(s[i + 1..e]).None? then None
            else Cat(Some(sb + value(s[i + 1..e]).value), rest[e + 1])
  {
    assert Turn(s, i, cut, value, rest);
    var e := i + cut(s[i..]);
    if i < e < |s| {
      CatAssoc(Some(sb), value(s[i + 1..e]), rest[e + 1]);
    } else {
      CatAssoc(Some(sb), Some([s[i]]), rest[i + 1]);
    }
  }

  /** The cursor loop. */
  method ScanInput(input: string, depth: nat, resolve: Resolver,
                   ghost cut: string -> nat, ghost value: Values, ghost rest: seq<Option<string>>)
    returns (out: Option<string>)
    requires depth <= MAX_DEPTH && cut == RefEnd && value == ValuesAt(depth, resolve) && Turns(input, cut, value, rest)
    ensures out == rest[0]
    decreases |input|, 0
  {
    var sb, i := "", 0;
    CatEmpty(rest[0]);
    while i < |input|
      invariant 0 <= i <= |input|
      invariant rest[0] == Cat(Some(sb), rest[i])
    {
      TakeTurn(input, i, cut, value, rest, sb);
      var end := ReferenceAt(input, i, cut);
      if end < |input| {
        var v := ResolveReference(input[i + 1..end], depth, resolve, value);
        if v.None? {
          return None;
        }
        sb, i := sb + v.value, end + 1;
      } else {
        sb, i := sb + [input[i]], i + 1;
      }
    }
    CatEmpty(Some(sb));
    return Some(sb);
  }

  method ParseRecursive(input: string, depth: nat, resolve: Resolver) returns (out: Option<string>)
    ensures out == Parse(input, depth, resolve)
    decreases |input|, 1
  {
    if depth > MAX_DEPTH {
      return None;
    }
    ghost var value := ValuesAt(depth, resolve);
    ghost var rest := Remainders(input, RefEnd, value);
    out := ScanInput(input, depth, resolve, RefEnd, value, rest);
  }

  // ------------------------------------------------------------ compositionality

  lemma CatEmpty(a: Option<string>)
    ensures Cat(Some(""), a) == a == Cat(a, Some(""))
  {
    if a.Some? {
      assert "" + a.value == a.value == a.value + "";
    }
  }

  lemma CatAssoc(a: Option<string>, b: Option<string>, c: Option<string>)
    ensures Cat(Cat(a, b), c) == Cat(a, Cat(b, c))
  {
    if a.Some? && b.Some? && c.Some? {
      assert a.value + b.value + c.value == a.value + (b.value + c.value);
    }
  }

  /** Every `{` of `a` is closed within `a`. */
  ghost predicate Closed(a: string) {
    forall i :: 0 <= i < |a| && a[i] == '{' ==> Close(a[i + 1..], 1) < |a| - i - 1
  }

  lemma ClosedSuffix(a: string, k: nat)
    requires Closed(a) && k <= |a|
    ensures Closed(a[k..])
  {
    forall i | 0 <= i < |a[k..]| && a[k..][i] == '{' ensures Close(a[k..][i + 1..], 1) < |a[k..]| - i - 1 {
      assert a[k..][i + 1..] == a[k + i + 1..];
    }
  }

  lemma {:induction false} CloseWithin(a: string, b: string, balance: nat)
    requires balance > 0 && Close(a, balance) < |a|
    ensures Close(a + b, balance) == Close(a, balance)
    decreases |a|
  {
    assert (a + b)[0] == a[0] && (a + b)[1..] == a[1..] + b;
    if !(a[0] == '}' && balance == 1) {
      CloseWithin(a[1..], b, Opened(a[0], balance));
    }
  }

  lemma RefEndWithin(a: string, b: string)
    requires a != "" && Closed(a)
    ensures RefEnd(a + b) == if RefEnd(a) < |a| then RefEnd(a) else |a + b|
  {
    var s := a + b;
    assert s[1..] == a[1..] + b;
    if a[0] == '{' {
      CloseWithin(a[1..], b, 1);
      var e := 1 + Close(a[1..], 1);
      assert s[1..e] == a[1..e];
    }
  }

  lemma {:induction false} RenderConcat(a: string, b: string, value: Values)
    requires Closed(a)
    ensures Render(a + b, value) == Cat(Render(a, value), Render(b, value))
    decreases |a|
  {
    if a == "" {
      assert a + b == b;
      CatEmpty(Render(b, value));
    } else {
      var s, e := a + b, RefEnd(a);
      RefEndWithin(a, b);
      var k := if e < |a| then e + 1 else 1;
      assert s[k..] == a[k..] + b;
      ClosedSuffix(a, k);
      RenderConcat(a[k..], b, value);
      var head := if e < |a| then value(a[1..e]) else Some([a[0]]);
      if e < |a| { assert s[1..e] == a[1..e]; }
      CatAssoc(head, Render(a[k..], value), Render(b, value));
    }
  }

  lemma {:induction false} NoBraceRendersItself(t: string, value: Values)
    requires '{' !in t
    ensures Render(t, value) == Some(t)
    decreases |t|
  {
    if t != "" {
      NoBraceRendersItself(t[1..], value);
      assert t == [t[0]] + t[1..];
    }
  }

  /** The fast path of Execute is no special case. */
  lemma ExecuteIsRender(t: string, resolve: Resolver)
    ensures Execute(t, resolve) == Render(t, ValuesAt(0, resolve))
  {
    if '{' !in t {
      NoBraceRendersItself(t, ValuesAt(0, resolve));
    }
  }

  /** Rendering is compositional wherever the first part closes its braces. */
  lemma Compositional(a: string, b: string, resolve: Resolver)
    requires Closed(a)
    ensures Execute(a + b, resolve) == Cat(Execute(a, resolve), Execute(b, resolve))
  {
    ExecuteIsRender(a, resolve);
    ExecuteIsRender(b, resolve);
    ExecuteIsRender(a + b, resolve);
    RenderConcat(a, b, ValuesAt(0, resolve));
  }

  // ---------------------------------------------------------------- balance

  /** Open braces after `t`, starting from `c`; None once one closes too many. */
  function Scan(t: string, c: nat): Option<nat> {
    if t == "" then Some(c)
    else if t[0] == '}' && c == 0 then None
    else Scan(t[1..], Opened(t[0], c))
  }

  predicate Balanced(t: string) { Scan(t, 0) == Some(0) }

  /** What is handed to the recursion is always balanced. */
  lemma {:induction false} ContentBalanced(t: string, balance: nat)
    requires balance > 0 && Close(t, balance) < |t|
    ensures Scan(t[..Close(t, balance)], balance - 1) == Some(0)
    decreases |t|
  {
    var e := Close(t, balance);
    if e > 0 {
      var content := t[..e];
      assert content[0] == t[0] && content[1..] == t[1..][..e - 1];
      ContentBalanced(t[1..], Opened(t[0], balance));
    }
  }

  /** Balanced text is closed by the brace that follows it, and by no other. */
  lemma {:induction false} ClosesAfter(x: string, rest: string, c: nat)
    requires Scan(x, c) == Some(0)
    ensures Close(x + "}" + rest, c + 1) == |x|
    decreases |x|
  {
    var s := x + "}" + rest;
    if x != "" {
      assert s[0] == x[0] && s[1..] == x[1..] + "}" + rest;
      ClosesAfter(x[1..], rest, Opened(x[0], c));
    }
  }

  lemma {:induction false} ScanCloses(t: string, c: nat, balance: nat)
    requires balance > 0 && Scan(t, c + balance) == Some(0)
    ensures Close(t, balance) < |t|
    decreases |t|
  {
    if t != "" && !(t[0] == '}' && balance == 1) {
      ScanCloses(t[1..], c, Opened(t[0], balance));
    }
  }

  lemma {:induction false} BalancedFrom(a: string, c: nat)
    requires Scan(a, c) == Some(0)
    ensures Closed(a)
    decreases |a|
  {
    if a != "" {
      BalancedFrom(a[1..], Opened(a[0], c));
      forall i | 0 <= i < |a| && a[i] == '{' ensures Close(a[i + 1..], 1) < |a| - i - 1 {
        if i == 0 {
          ScanCloses(a[1..], c, 1);
        } else {
          assert a[1..][i - 1] == '{' && a[1..][i..] == a[i + 1..];
        }
      }
    }
  }

  lemma BalancedIsClosed(a: string)
    requires Balanced(a)
    ensures Closed(a)
  {
    BalancedFrom(a, 0);
  }

  // ---------------------------------------------------------- substitution

  /** A plain variable name. */
  predicate IsName(x: string) {
    x != "" && forall c :: c in x ==> IsVariableChar(c)
  }

  lemma {:induction false} NameShape(x: string, c: nat)
    requires forall c :: c in x ==> IsVariableChar(c)
    ensures ValidChars(x) && Scan(x, c) == Some(c)
    decreases |x|
  {
    if x != "" {
      assert x[0] in x;
      NameShape(x[1..], c);
    }
  }

  /** A reference around balanced, valid content renders to the content's value. */
  lemma ReferenceRenders(x: string, value: Values)
    requires Balanced(x) && ValidStructure(x)
    ensures Render("{" + x + "}", value) == value(x)
  {
    var v := "{" + x + "}";
    ClosesAfter(x, "", 0);
    assert v[1..] == x + "}" + "";
    assert RefEnd(v) == |x| + 1 by { assert v[1..|x| + 1] == x; }
    assert v[1..|x| + 1] == x && v[|x| + 2..] == "";
    assert Render(v, value) == Cat(value(x), RenderBy("", RefEnd, value));
    CatEmpty(value(x));
  }

  lemma {:induction false} UnclosedNever(t: string, balance: nat)
    requires '}' !in t && balance > 0
    ensures Close(t, balance) == |t|
    decreases |t|
  {
    if t != "" { UnclosedNever(t[1..], Opened(t[0], balance)); }
  }

  /** Text that closes no brace renders as it is. */
  lemma {:induction false} UnclosedRendersItself(t: string, value: Values)
    requires '}' !in t
    ensures Render(t, value) == Some(t)
    decreases |t|
  {
    if t != "" {
      UnclosedNever(t[1..], 1);
      assert t == [t[0]] + t[1..];
      UnclosedRendersItself(t[1..], value);
    }
  }

  lemma {:induction false} ValidPlain(x: string)
    requires '{' !in x && '}' !in x
    ensures ValidChars(x) <==> forall c :: c in x ==> IsVariableChar(c)
    ensures Balanced(x)
    decreases |x|
  {
    if x != "" {
      assert x == [x[0]] + x[1..];
      ValidPlain(x[1..]);
    }
  }

  /** Braces around text without braces are a reference exactly if the text is not
      empty and is made of letters, digits and `_.:()=/-@,`; else they are text. */
  lemma PlainReferenceIff(x: string, value: Values)
    requires '{' !in x && '}' !in x
    ensures Render("{" + x + "}", value) ==
            if x != "" &&
               (forall c :: c in x ==>
                 'a' <= c <= 'z' || 'A' <= c <= 'Z' || '0' <= c <= '9' || c == '_' || c == '.' || c == ':' ||
                 c == '(' || c == ')' || c == '=' || c == '/' || c == '-' || c == '@' || c == ',')
            then value(x) else Some("{" + x + "}")
  {
    ValidPlain(x);
    if ValidStructure(x) {
      ReferenceRenders(x, value);
    } else {
      var v, rest := "{" + x + "}", x + "}";
      ClosesAfter(x, "", 0);
      assert v[1..] == rest == x + "}" + "";
      assert v[1..|x| + 1] == x;
      assert RefEnd(v) == |v|;
      NoBraceRendersItself(rest, value);
      assert v == ['{'] + rest;
    }
  }

  lemma ReferenceIsClosed(x: string)
    requires Balanced(x)
    ensures Closed("{" + x + "}")
  {
    var v := "{" + x + "}";
    ScanShift(x, 0, 1);
    ScanConcat(x, "}", 1);
    assert v[1..] == x + "}";
    BalancedIsClosed(v);
  }

  lemma ReferenceInside(a: string, x: string, b: string, value: Values)
    requires Closed(a) && Balanced(x) && ValidStructure(x)
    ensures Render(a + ("{" + x + "}") + b, value) == Cat(Cat(Render(a, value), value(x)), Render(b, value))
  {
    var v := "{" + x + "}";
    ReferenceRenders(x, value);
    ReferenceIsClosed(x);
    RenderConcat(v, b, value);
    RenderConcat(a, v + b, value);
    assert a + v + b == a + (v + b);
    CatAssoc(Render(a, value), value(x), Render(b, value));
  }

  /** What a reference renders to is inserted verbatim and never scanned again,
      whatever braces it contains. */
  lemma SubstitutedVerbatim(a: string, x: string, b: string, resolve: Resolver)
    requires Closed(a) && Balanced(x) && ValidStructure(x)
    ensures Execute(a + ("{" + x + "}") + b, resolve) ==
            Cat(Cat(Execute(a, resolve), ValuesAt(0, resolve)(x)), Execute(b, resolve))
  {
    ReferenceInside(a, x, b, ValuesAt(0, resolve));
    ExecuteIsRender(a, resolve);
    ExecuteIsRender(b, resolve);
    ExecuteIsRender(a + ("{" + x + "}") + b, resolve);
  }

  /** The value inserted for a plain name is the resolver's answer. */
  lemma NameValue(x: string, depth: nat, resolve: Resolver)
    requires IsName(x)
    ensures Balanced(x) && ValidStructure(x) && ValuesAt(depth, resolve)(x) == Some(resolve(x))
  {
    NameShape(x, 0);
    assert '{' !in x;
  }

  lemma {:induction false} ScanShift(x: string, c: nat, k: nat)
    requires Scan(x, c).Some?
    ensures Scan(x, c + k) == Some(Scan(x, c).value + k)
    decreases |x|
  {
    if x != "" {
      assert Opened(x[0], c + k) == k + Opened(x[0], c);
      ScanShift(x[1..], Opened(x[0], c), k);
    }
  }

  lemma {:induction false} ScanConcat(x: string, y: string, c: nat)
    requires Scan(x, c).Some?
    ensures Scan(x + y, c) == Scan(y, Scan(x, c).value)
    decreases |x|
  {
    if x == "" {
      assert x + y == y;
    } else {
      assert (x + y)[1..] == x[1..] + y;
      ScanConcat(x[1..], y, Opened(x[0], c));
    }
  }

  // ------------------------------------------------------------------ depth

  /** Deepest brace nesting met in `t`, starting `c` levels deep. */
  function Deep(t: string, c: nat): (d: nat)
    ensures d >= c
  {
    if t == "" then c
    else
      var d := Deep(t[1..], Opened(t[0], c));
      if d < c then c else d
  }

  function Depth(t: string): nat { Deep(t, 0) }

  lemma {:induction false} DeepPrefix(x: string, y: string, c: nat)
    ensures Deep(x, c) <= Deep(x + y, c)
    decreases |x|
  {
    if x == "" {
      assert x + y == y;
    } else {
      assert (x + y)[1..] == x[1..] + y;
      DeepPrefix(x[1..], y, Opened(x[0], c));
    }
  }

  lemma {:induction false} DeepShift(x: string, c: nat, k: nat)
    requires Scan(x, c).Some?
    ensures Deep(x, c + k) == k + Deep(x, c)
    decreases |x|
  {
    if x != "" {
      assert Opened(x[0], c + k) == k + Opened(x[0], c);
      DeepShift(x[1..], Opened(x[0], c), k);
    }
  }

  /** Deeper starts reach at least as deep. */
  lemma {:induction false} DeepMonotone(t: string, c: nat, c': nat)
    requires c <= c'
    ensures Deep(t, c) <= Deep(t, c')
    decreases |t|
  {
    if t != "" {
      DeepMonotone(t[1..], Opened(t[0], c), Opened(t[0], c'));
    }
  }

  lemma {:induction false} SuffixIsShallower(t: string, k: nat, c: nat)
    requires k <= |t|
    ensures Depth(t[k..]) <= Deep(t, c)
    decreases k
  {
    if k == 0 {
      assert t[0..] == t;
      DeepMonotone(t, 0, c);
    } else {
      assert t[1..][k - 1..] == t[k..];
      SuffixIsShallower(t[1..], k - 1, Opened(t[0], c));
    }
  }

  /** A reference's content nests one level less than the text around it. */
  lemma ContentIsShallower(t: string)
    requires t != "" && RefEnd(t) < |t|
    ensures 1 + Depth(t[1..RefEnd(t)]) <= Depth(t)
  {
    var tail, e := t[1..], RefEnd(t);
    var content := tail[..e - 1];
    assert t[1..e] == content && tail == content + tail[e - 1..];
    ContentBalanced(tail, 1);
    DeepPrefix(content, tail[e - 1..], 1);
    DeepShift(content, 0, 1);
  }

  lemma BraceMeansDepth(t: string)
    requires '{' in t
    ensures Depth(t) >= 1
  {
    var i :| 0 <= i < |t| && t[i] == '{';
    SuffixIsShallower(t, i, 0);
    assert t[i..][0] == '{';
  }

  /** Values that exist for all shallow contents make shallow text render. */
  lemma {:induction false} RenderDefined(t: string, value: Values, limit: nat)
    requires Depth(t) <= limit + 1
    requires forall content :: Depth(content) <= limit ==> value(content).Some?
    ensures Render(t, value).Some?
    decreases |t|
  {
    if t != "" {
      var e := RefEnd(t);
      var k := if e < |t| then e + 1 else 1;
      if e < |t| { ContentIsShallower(t); }
      SuffixIsShallower(t, k, 0);
      RenderDefined(t[k..], value, limit);
    }
  }

  lemma {:induction false} ShallowParses(t: string, depth: nat, resolve: Resolver)
    requires depth <= MAX_DEPTH && Depth(t) + depth <= MAX_DEPTH + 1
    ensures Parse(t, depth, resolve).Some?
    decreases MAX_DEPTH - depth
  {
    var limit := MAX_DEPTH - depth;
    forall content | Depth(content) <= limit ensures ValuesAt(depth, resolve)(content).Some? {
      if '{' in content {
        BraceMeansDepth(content);
        ShallowParses(content, depth + 1, resolve);
      }
    }
    RenderDefined(t, ValuesAt(depth, resolve), limit);
  }

  /** Templates nested at most eleven braces deep never hit the depth error. */
  lemma ElevenLevelsAreFine(t: string, resolve: Resolver)
    requires Depth(t) <= 11
    ensures Execute(t, resolve).Some?
  {
    if '{' in t {
      ShallowParses(t, 0, resolve);
    }
  }

  /** The contents of the references met in `t`. */
  function ContentsBy(t: string, cut: string -> nat): seq<string>
    decreases |t|
  {
    if t == "" then []
    else
      var e := cut(t);
      if 0 < e < |t| then [t[1..e]] + ContentsBy(t[e + 1..], cut) else ContentsBy(t[1..], cut)
  }

  function Contents(t: string): seq<string> { ContentsBy(t, RefEnd) }

  ghost predicate SomeFails(contents: seq<string>, value: Values) {
    exists c :: c in contents && value(c).None?
  }

  /** A rendering fails exactly if the value of one of its references does. */
  lemma {:induction false} RenderFailsIff(t: string, cut: string -> nat, value: Values)
    ensures RenderBy(t, cut, value).None? <==> SomeFails(ContentsBy(t, cut), value)
    decreases |t|
  {
    if t != "" {
      var e := cut(t);
      if 0 < e < |t| {
        RenderFailsIff(t[e + 1..], cut, value);
        assert t[1..e] in ContentsBy(t, cut);
      } else {
        RenderFailsIff(t[1..], cut, value);
      }
    }
  }

  /** Some reference in `t` holds a brace, a reference in it again, and so on,
      more than `room` times. */
  ghost predicate TooDeep(t: string, room: nat)
    decreases room, 2
  {
    SomeBlocked(Contents(t), room)
  }

  ghost predicate SomeBlocked(contents: seq<string>, room: nat)
    decreases room, 1
  {
    exists c :: c in contents && Blocked(c, room)
  }

  ghost predicate Blocked(content: string, room: nat)
    decreases room, 0
  {
    '{' in content && (room == 0 || TooDeep(content, room - 1))
  }

  lemma InnerFails(content: string, depth: nat, resolve: Resolver)
    requires depth <= MAX_DEPTH
    ensures ValuesAt(depth, resolve)(content).None? <==>
            '{' in content && Parse(content, depth + 1, resolve).None?
  {
  }

  lemma {:induction false} BlockedIff(content: string, depth: nat, resolve: Resolver)
    requires depth <= MAX_DEPTH
    ensures ValuesAt(depth, resolve)(content).None? <==> Blocked(content, MAX_DEPTH - depth)
    decreases MAX_DEPTH - depth, 0
  {
    InnerFails(content, depth, resolve);
    if depth < MAX_DEPTH { DepthErrorIff(content, depth + 1, resolve); }
  }

  lemma {:induction false} SomeBlockedIff(contents: seq<string>, depth: nat, resolve: Resolver)
    requires depth <= MAX_DEPTH
    ensures SomeFails(contents, ValuesAt(depth, resolve)) <==> SomeBlocked(contents, MAX_DEPTH - depth)
    decreases MAX_DEPTH - depth, 1
  {
    forall c ensures ValuesAt(depth, resolve)(c).None? <==> Blocked(c, MAX_DEPTH - depth) {
      BlockedIff(c, depth, resolve);
    }
  }

  /** Exactly when a rendering ends in the depth error. */
  lemma {:induction false} DepthErrorIff(t: string, depth: nat, resolve: Resolver)
    requires depth <= MAX_DEPTH
    ensures Parse(t, depth, resolve).None? <==> TooDeep(t, MAX_DEPTH - depth)
    decreases MAX_DEPTH - depth, 2
  {
    RenderFailsIff(t, RefEnd, ValuesAt(depth, resolve));
    SomeBlockedIff(Contents(t), depth, resolve);
  }

  lemma ExecuteIsParse(t: string, depth: nat, resolve: Resolver)
    requires depth == 0
    ensures Execute(t, resolve) == Parse(t, depth, resolve)
  {
    ExecuteIsRender(t, resolve);
  }

  lemma ExecuteFailsIff(t: string, resolve: Resolver, room: nat)
    requires room == MAX_DEPTH
    ensures Execute(t, resolve).None? <==> TooDeep(t, room)
  {
    var depth := MAX_DEPTH - room;
    ExecuteIsParse(t, depth, resolve);
    DepthErrorIff(t, depth, resolve);
  }

  /** `n` nested variables. */
  function Nest(n: nat): string {
    if n == 0 then "a" else "{" + Nest(n - 1) + "}"
  }

  lemma {:induction false} NestShape(n: nat, c: nat)
    ensures Scan(Nest(n), c) == Some(c) && ValidStructure(Nest(n))
    ensures n > 0 ==> '{' in Nest(n)
  {
    if n == 0 {
      NameShape("a", c);
    } else {
      var inner, s := Nest(n - 1), Nest(n);
      assert s[1..] == inner + "}";
      NestShape(n - 1, c + 1);
      ScanConcat(inner, "}", c + 1);
      NestShape(n - 1, 0);
      ClosesAfter(inner, "", 0);
      assert inner + "}" + "" == inner + "}";
      assert s[|inner| + 2..] == "";
    }
  }

  lemma NestContents(n: nat)
    requires n > 0
    ensures Contents(Nest(n)) == [Nest(n - 1)]
  {
    var inner, s := Nest(n - 1), Nest(n);
    NestShape(n - 1, 0);
    ClosesAfter(inner, "", 0);
    assert s[1..] == inner + "}" + "";
    assert s[1..|inner| + 1] == inner && s[|inner| + 2..] == "";
    assert RefEnd(s) == |inner| + 1;
    assert ContentsBy("", RefEnd) == [];
  }

  lemma NestBlocked(n: nat, room: nat)
    requires n > 0
    ensures TooDeep(Nest(n), room) <==> Blocked(Nest(n - 1), room)
    ensures '{' in Nest(n - 1) <==> n > 1
  {
    NestContents(n);
    assert Nest(n - 1) in Contents(Nest(n));
    NestShape(n - 1, 0);
    assert Nest(0) == "a";
  }

  lemma {:induction false} NestDepth(n: nat, room: nat)
    requires n > 0
    ensures TooDeep(Nest(n), room) <==> n >= room + 2
    decreases n
  {
    NestBlocked(n, room);
    if n > 1 && room > 0 { NestDepth(n - 1, room - 1); }
  }

  /** The bound is exact: nesting fails from twelve levels on. */
  lemma NestedFailsFromTwelve(n: nat, resolve: Resolver)
    ensures Execute(Nest(n), resolve).None? <==> n >= 12
  {
    if n == 0 {
      assert Nest(0) == "a";
    } else {
      ExecuteFailsIff(Nest(n), resolve, MAX_DEPTH);
      NestDepth(n, MAX_DEPTH);
    }
  }
}
