/** Condition trees: load-time preparation (internal/rule/condition_resolver.go)
    and evaluation (internal/rule/evaluator.go). The comparison helpers and the
    '@' fields are functions of the context. */
module Conditionals {
  import opened Text
  import opened Json

  datatype Conditions = Conditions(operator: string, items: seq<Condition>, groups: seq<Conditions>)

  /** What preparation caches for one template: the variable name and, for plain
      message fields, the split path. */
  datatype Cache = Cache(varName: string, path: Option<seq<string>>)

  const NOTHING := Cache("", None)

  datatype Condition = Condition(
    field: string,
    operator: string,
    value: Json,
    nested: Option<Conditions>,
    fieldCache: Cache,
    valueCache: Cache)

  /** `msg` is the current message or array element. */
  datatype Context = Context(
    msg: map<string, Json>,
    system: (string, map<string, Json>) -> Option<Json>,
    compare: (string, Json, Json) -> bool)

  // ------------------------------------------------------------- templates

  /** unicode.IsSpace */
  predicate IsSpace(c: char) {
    '\t' <= c <= '\r' || c == ' ' || c == '\U{85}' || c == '\U{A0}' || c == '\U{1680}' ||
    '\U{2000}' <= c <= '\U{200A}' || c == '\U{2028}' || c == '\U{2029}' || c == '\U{202F}' ||
    c == '\U{205F}' || c == '\U{3000}'
  }

  /** strings.TrimSpace */
  function Trim(s: string): (t: string)
    ensures t != "" ==> !IsSpace(t[0]) && !IsSpace(t[|t| - 1])
    ensures |t| <= |s| && (|t| == |s| ==> t == s)
  {
    if s == "" then ""
    else if IsSpace(s[0]) then Trim(s[1..])
    else if IsSpace(s[|s| - 1]) then Trim(s[..|s| - 1])
    else s
  }

  predicate IsTemplate(s: string) { '{' in s && '}' in s }

  predicate Braced(s: string) { |s| >= 2 && s[0] == '{' && s[|s| - 1] == '}' }

  function ExtractVariable(template: string): string {
    var t := Trim(template);
    if !Braced(t) || Trim(t[1..|t| - 1]) == "" then "" else t[1..|t| - 1]
  }

  function PrecomputeTemplatePath(s: string): Cache {
    var varName := ExtractVariable(s);
    if !IsTemplate(s) || varName == "" then NOTHING
    else if varName[0] == '@' then Cache(varName, None)
    else if '{' in varName then NOTHING
    else Cache(varName, Some(Split(varName, '.')))
  }

  // -------------------------------------------------------------- resolving

  function ResolveValue(name: string, ctx: Context): Option<Json> {
    if name != "" && name[0] == '@' then ctx.system(name, ctx.msg)
    else if name == "" then Some(JObj(ctx.msg))
    else Read(JObj(ctx.msg), Split(name, '.'))
  }

  /** resolveConditionValue; None is the error. */
  function Resolve(value: Json, ctx: Context): Option<Json> {
    if !value.JStr? || |value.s| < 3 || !Braced(value.s) then Some(value)
    else ResolveValue(value.s[1..|value.s| - 1], ctx)
  }

  /** resolveConditionValueFast */
  function ResolveFast(value: Json, cache: Cache, ctx: Context): Option<Json> {
    if cache.path.Some? then Read(JObj(ctx.msg), cache.path.value)
    else if cache.varName != "" then ResolveValue(cache.varName, ctx)
    else Resolve(value, ctx)
  }

  /** A template only preparation recognises, because only it trims. */
  predicate PaddedTemplate(s: string) {
    s != Trim(s) && PrecomputeTemplatePath(s) != NOTHING
  }

  /** An empty message, and no '@' field resolves. */
  function EmptyContext(): Context { Context(map[], (name, msg) => None, (operator, l, r) => false) }

  /** A cached template resolves as the uncached one, in every context, exactly
      when it is not padded. */
  lemma FastEqualsSlowIff(s: string)
    ensures (forall ctx :: ResolveFast(JStr(s), PrecomputeTemplatePath(s), ctx) == Resolve(JStr(s), ctx))
            <==> !PaddedTemplate(s)
  {
    if PaddedTemplate(s) {
      var ctx := EmptyContext();
      var cache := PrecomputeTemplatePath(s);
      PaddedIsLiteral(s);
      assert Resolve(JStr(s), ctx) == Some(JStr(s));
      assert ResolveFast(JStr(s), cache, ctx) == None;
    } else {
      forall ctx ensures ResolveFast(JStr(s), PrecomputeTemplatePath(s), ctx) == Resolve(JStr(s), ctx) {
        FastEqualsSlow(s, ctx);
      }
    }
  }

  lemma PaddedTemplateExample()
    ensures PaddedTemplate(" {a}")
  {
    var s := " {a}";
    assert s[1..] == "{a}" && Trim(s) == "{a}" && "{a}"[1..2] == "a";
    assert s[1] == '{' && s[3] == '}';
  }

  lemma FastEqualsSlow(s: string, ctx: Context)
    requires !PaddedTemplate(s)
    ensures ResolveFast(JStr(s), PrecomputeTemplatePath(s), ctx) == Resolve(JStr(s), ctx)
  {
  }

  lemma PaddedIsLiteral(s: string)
    requires s != Trim(s)
    ensures !Braced(s)
  {
  }

  // ------------------------------------------------------------ preparation

  function Prepared(c: Conditions): Conditions
    decreases c
  {
    Conditions(c.operator,
               seq(|c.items|, i requires 0 <= i < |c.items| => PreparedCondition(c.items[i])),
               seq(|c.groups|, i requires 0 <= i < |c.groups| => Prepared(c.groups[i])))
  }

  function PreparedCondition(c: Condition): Condition
    decreases c
  {
    c.(fieldCache := PrecomputeTemplatePath(c.field),
       valueCache := if c.value.JStr? then PrecomputeTemplatePath(c.value.s) else c.valueCache,
       nested := if c.nested.Some? then Some(Prepared(c.nested.value)) else None)
  }

  method PrepareConditions(c: Conditions) returns (p: Conditions)
    ensures p == Prepared(c)
    decreases c
  {
    p := c;
    for i := 0 to |c.items|
      invariant p.operator == c.operator && p.groups == c.groups && |p.items| == |c.items|
      invariant p.items[i..] == c.items[i..]
      invariant forall k :: 0 <= k < i ==> p.items[k] == PreparedCondition(c.items[k])
    {
      var item := PrepareCondition(c.items[i]);
      p := p.(items := p.items[i := item]);
    }
    for i := 0 to |c.groups|
      invariant p.operator == c.operator && p.items == Prepared(c).items && |p.groups| == |c.groups|
      invariant p.groups[i..] == c.groups[i..]
      invariant forall k :: 0 <= k < i ==> p.groups[k] == Prepared(c.groups[k])
    {
      var group := PrepareConditions(c.groups[i]);
      p := p.(groups := p.groups[i := group]);
    }
  }

  method PrepareCondition(c: Condition) returns (p: Condition)
    ensures p == PreparedCondition(c)
    decreases c
  {
    p := c.(fieldCache := PrecomputeTemplatePath(c.field));
    if c.value.JStr? {
      p := p.(valueCache := PrecomputeTemplatePath(c.value.s));
    }
    if c.nested.Some? {
      var nested := PrepareConditions(c.nested.value);
      p := p.(nested := Some(nested));
    }
  }

  // ------------------------------------------------------- declared meaning

  function EnsureObject(v: Json): map<string, Json> {
    if v.JObj? then v.fields else map["@value" := v]
  }

  function WithElement(ctx: Context, element: Json): Context {
    ctx.(msg := EnsureObject(element))
  }

  const COMPARISONS := {"eq", "neq", "gt", "lt", "gte", "lte", "contains", "in", "recent"}

  predicate Compares(operator: string, l: Json, r: Json, ctx: Context) {
    if operator == "not_contains" then !ctx.compare("contains", l, r)
    else if operator == "not_in" then !ctx.compare("in", l, r)
    else operator in COMPARISONS && ctx.compare(operator, l, r)
  }

  ghost predicate Holds(c: Conditions, ctx: Context)
    decreases c
  {
    if c.items == [] && c.groups == [] then true
    else if c.operator == "and" then
      (forall i :: 0 <= i < |c.items| ==> Met(c.items[i], ctx)) &&
      (forall i :: 0 <= i < |c.groups| ==> Holds(c.groups[i], ctx))
    else
      c.operator == "or" &&
      ((exists i :: 0 <= i < |c.items| && Met(c.items[i], ctx)) ||
       (exists i :: 0 <= i < |c.groups| && Holds(c.groups[i], ctx)))
  }

  predicate IsArrayOperator(operator: string) { operator == "any" || operator == "all" || operator == "none" }

  ghost predicate Met(c: Condition, ctx: Context)
    decreases c, 1
  {
    var left := ResolveFast(JStr(c.field), c.fieldCache, ctx);
    var present := left.Some? && left.value != JNull;
    if c.operator == "exists" then present
    else if c.operator == "not_exists" then !present
    else if !present then false
    else if IsArrayOperator(c.operator) then
      left.value.JArr? && c.nested.Some? && Quantified(c, left.value.items, ctx)
    else
      var right := ResolveFast(c.value, c.valueCache, ctx);
      right.Some? && Compares(c.operator, left.value, right.value, ctx)
  }

  ghost predicate Quantified(c: Condition, elements: seq<Json>, ctx: Context)
    requires c.nested.Some?
    decreases c, 0
  {
    var some := exists i :: 0 <= i < |elements| && Holds(c.nested.value, WithElement(ctx, elements[i]));
    var every := forall i :: 0 <= i < |elements| ==> Holds(c.nested.value, WithElement(ctx, elements[i]));
    if c.operator == "any" then some
    else if c.operator == "all" then elements != [] && every
    else !some
  }

  // -------------------------------------------------------------- evaluation

  method Evaluate(c: Conditions, ctx: Context) returns (ok: bool)
    ensures ok <==> Holds(c, ctx)
    ensures c.items == [] && c.groups == [] ==> ok
    ensures c.items != [] || c.groups != [] ==> ok ==> c.operator == "and" || c.operator == "or"
    decreases c, 1
  {
    if |c.items| == 0 && |c.groups| == 0 {
      return true;
    }
    if c.operator == "and" {
      ok := EvaluateAnd(c, ctx);
    } else if c.operator == "or" {
      ok := EvaluateOr(c, ctx);
    } else {
      ok := false;
    }
  }

  method EvaluateAnd(c: Conditions, ctx: Context) returns (ok: bool)
    requires c.operator == "and"
    ensures ok <==> Holds(c, ctx)
    ensures ok <==> (forall i :: 0 <= i < |c.items| ==> Met(c.items[i], ctx)) &&
                    (forall i :: 0 <= i < |c.groups| ==> Holds(c.groups[i], ctx))
    decreases c, 0
  {
    for i := 0 to |c.items|
      invariant forall k :: 0 <= k < i ==> Met(c.items[k], ctx)
    {
      var met := EvaluateCondition(c.items[i], ctx);
      if !met {
        return false;
      }
    }
    for i := 0 to |c.groups|
      invariant forall k :: 0 <= k < i ==> Holds(c.groups[k], ctx)
    {
      var holds := Evaluate(c.groups[i], ctx);
      if !holds {
        return false;
      }
    }
    return true;
  }

  method EvaluateOr(c: Conditions, ctx: Context) returns (ok: bool)
    requires c.operator == "or" && (c.items != [] || c.groups != [])
    ensures ok <==> Holds(c, ctx)
    ensures ok <==> (exists i :: 0 <= i < |c.items| && Met(c.items[i], ctx)) ||
                    (exists i :: 0 <= i < |c.groups| && Holds(c.groups[i], ctx))
    decreases c, 0
  {
    for i := 0 to |c.items|
      invariant forall k :: 0 <= k < i ==> !Met(c.items[k], ctx)
    {
      var met := EvaluateCondition(c.items[i], ctx);
      if met {
        return true;
      }
    }
    for i := 0 to |c.groups|
      invariant forall k :: 0 <= k < i ==> !Holds(c.groups[k], ctx)
    {
      var holds := Evaluate(c.groups[i], ctx);
      if holds {
        return true;
      }
    }
    return false;
  }

  function Left(c: Condition, ctx: Context): Option<Json> { ResolveFast(JStr(c.field), c.fieldCache, ctx) }

  function Right(c: Condition, ctx: Context): Option<Json> { ResolveFast(c.value, c.valueCache, ctx) }

  ghost predicate Present(c: Condition, ctx: Context) { Left(c, ctx).Some? && Left(c, ctx).value != JNull }

  method EvaluateCondition(c: Condition, ctx: Context) returns (ok: bool)
    ensures ok <==> Met(c, ctx)
    ensures c.operator == "exists" ==> ok == Present(c, ctx)
    ensures c.operator == "not_exists" ==> ok == !Present(c, ctx)
    ensures c.operator != "not_exists" && !Present(c, ctx) ==> !ok
    decreases c, 1
  {
    var left := ResolveFast(JStr(c.field), c.fieldCache, ctx);
    if c.operator == "exists" {
      return left.Some? && left.value != JNull;
    }
    if c.operator == "not_exists" {
      return left.None? || left.value == JNull;
    }
    if left.None? || left.value == JNull {
      return false;
    }
    if c.operator == "any" || c.operator == "all" || c.operator == "none" {
      ok := EvaluateArrayCondition(left.value, c, ctx);
      return;
    }
    var right := ResolveFast(c.value, c.valueCache, ctx);
    return right.Some? && Compares(c.operator, left.value, right.value, ctx);
  }

  /** The counting loop with its three early exits. */
  method EvaluateArrayCondition(field: Json, c: Condition, ctx: Context) returns (ok: bool)
    requires IsArrayOperator(c.operator)
    ensures ok <==> field.JArr? && c.nested.Some? && Quantified(c, field.items, ctx)
    ensures !field.JArr? || c.nested.None? ==> !ok
    ensures field.JArr? && c.nested.Some? && c.operator == "any" ==>
              (ok <==> exists i :: 0 <= i < |field.items| && Holds(c.nested.value, WithElement(ctx, field.items[i])))
    ensures field.JArr? && c.nested.Some? && c.operator == "all" ==>
              (ok <==> field.items != [] &&
                       forall i :: 0 <= i < |field.items| ==> Holds(c.nested.value, WithElement(ctx, field.items[i])))
    ensures field.JArr? && c.nested.Some? && c.operator == "none" ==>
              (ok <==> forall i :: 0 <= i < |field.items| ==> !Holds(c.nested.value, WithElement(ctx, field.items[i])))
    decreases c, 0
  {
    if !field.JArr? || c.nested.None? {
      return false;
    }
    var matchCount := 0;
    for i := 0 to |field.items|
      invariant 0 <= matchCount <= i
      invariant c.operator == "all" ==> matchCount == i
      invariant c.operator != "all" ==> matchCount == 0
      invariant forall k :: 0 <= k < i ==>
        (Holds(c.nested.value, WithElement(ctx, field.items[k])) <==> c.operator == "all")
    {
      var matched := Evaluate(c.nested.value, WithElement(ctx, field.items[i]));
      if matched {
        matchCount := matchCount + 1;
        if c.operator == "any" {
          return true;
        }
        if c.operator == "none" {
          return false;
        }
      } else if c.operator == "all" {
        return false;
      }
    }
    if c.operator == "any" {
      return matchCount > 0;
    } else if c.operator == "all" {
      return matchCount > 0 && matchCount == |field.items|;
    } else {
      return matchCount == 0;
    }
  }

  // ------------------------------------------------------ what operators do

  /** Both sides are there to be compared. */
  ghost predicate Comparable(c: Condition, ctx: Context) { Present(c, ctx) && Right(c, ctx).Some? }

  /** The nine plain operators are the comparison helpers on the resolved sides. */
  lemma PlainOperators(c: Condition, ctx: Context)
    requires Comparable(c, ctx)
    requires c.operator == "eq" || c.operator == "neq" || c.operator == "gt" || c.operator == "lt" ||
             c.operator == "gte" || c.operator == "lte" || c.operator == "contains" || c.operator == "in" ||
             c.operator == "recent"
    ensures Met(c, ctx) <==> ctx.compare(c.operator, Left(c, ctx).value, Right(c, ctx).value)
  {
  }

  /** The two negated operators answer the opposite of the plain ones. */
  lemma NegatedOperators(c: Condition, ctx: Context)
    requires Comparable(c, ctx)
    ensures Met(c.(operator := "not_contains"), ctx) <==> !Met(c.(operator := "contains"), ctx)
    ensures Met(c.(operator := "not_in"), ctx) <==> !Met(c.(operator := "in"), ctx)
  {
    PlainOperators(c.(operator := "contains"), ctx);
    PlainOperators(c.(operator := "in"), ctx);
  }

  /** No other operator but the existence and array ones is ever met, and a value
      that does not resolve meets none. */
  lemma OtherOperators(c: Condition, ctx: Context)
    requires c.operator !in {"exists", "not_exists", "any", "all", "none"}
    requires Right(c, ctx).None? ||
             c.operator !in {"eq", "neq", "gt", "lt", "gte", "lte",
                             "contains", "not_contains", "in", "not_in", "recent"}
    ensures !Met(c, ctx)
  {
  }

  /** An array operator reads each element as a message of its own: an object's
      paths are read in it, any other value is read under "@value". */
  lemma ElementsAreMessages(v: Json, path: seq<string>, ctx: Context)
    ensures v.JObj? ==> Read(JObj(WithElement(ctx, v).msg), path) == Read(v, path)
    ensures !v.JObj? ==> Read(JObj(WithElement(ctx, v).msg), ["@value"] + path) == Read(v, path)
  {
    assert (["@value"] + path)[1..] == path;
  }

  /** A value in braces is read from the message along its dots; a '@' name is
      asked of the system; anything else stands for itself. */
  lemma WhatResolves(name: string, ctx: Context)
    requires name != ""
    ensures Resolve(JStr("{" + name + "}"), ctx) ==
            if name[0] == '@' then ctx.system(name, ctx.msg) else Read(JObj(ctx.msg), Split(name, '.'))
    ensures name[0] != '{' ==> Resolve(JStr(name), ctx) == Some(JStr(name))
  {
    var t := "{" + name + "}";
    assert t[1..|t| - 1] == name && t[|t| - 1] == '}';
  }

  /** What preparation caches for a template: its name, and for a plain message
      field the path along its dots. */
  lemma WhatIsCached(name: string)
    requires Trim(name) == name != ""
    ensures PrecomputeTemplatePath("{" + name + "}") ==
            if name[0] == '@' then Cache(name, None)
            else if '{' in name then Cache("", None)
            else Cache(name, Some(Split(name, '.')))
  {
    var t := "{" + name + "}";
    assert t[0] in t && t[|t| - 1] in t && t[1..|t| - 1] == name;
    assert !IsSpace(t[0]) && !IsSpace(t[|t| - 1]);
  }

  // ------------------------------------------- preparation preserves meaning

  /** No caches yet, and no padded templates. */
  ghost predicate Raw(c: Conditions)
    decreases c
  {
    (forall i :: 0 <= i < |c.items| ==> RawCondition(c.items[i])) &&
    (forall i :: 0 <= i < |c.groups| ==> Raw(c.groups[i]))
  }

  ghost predicate RawCondition(c: Condition)
    decreases c
  {
    c.fieldCache == c.valueCache == NOTHING && !PaddedTemplate(c.field) &&
    (c.value.JStr? ==> !PaddedTemplate(c.value.s)) && (c.nested.Some? ==> Raw(c.nested.value))
  }

  /** A rule prepared at load time and the same rule left unprepared (as rules
      from the KV bucket are) decide every message alike. */
  lemma {:induction false} PreparationPreservesMeaning(c: Conditions, ctx: Context)
    requires Raw(c)
    ensures Holds(Prepared(c), ctx) <==> Holds(c, ctx)
    decreases c, 2
  {
    var p := Prepared(c);
    forall i | 0 <= i < |c.items| ensures Met(p.items[i], ctx) <==> Met(c.items[i], ctx) {
      PreparationPreservesCondition(c.items[i], ctx);
    }
    forall i | 0 <= i < |c.groups| ensures Holds(p.groups[i], ctx) <==> Holds(c.groups[i], ctx) {
      PreparationPreservesMeaning(c.groups[i], ctx);
    }
  }

  lemma PreparationPreservesQuantified(c: Condition, elements: seq<Json>, ctx: Context)
    requires RawCondition(c) && c.nested.Some?
    ensures Quantified(PreparedCondition(c), elements, ctx) <==> Quantified(c, elements, ctx)
    decreases c, 0
  {
    var before, after := c.nested.value, Prepared(c.nested.value);
    forall i | 0 <= i < |elements|
      ensures Holds(after, WithElement(ctx, elements[i])) <==> Holds(before, WithElement(ctx, elements[i]))
    {
      PreparationPreservesMeaning(before, WithElement(ctx, elements[i]));
    }
  }

  lemma ResolvesAlike(c: Condition, ctx: Context)
    requires RawCondition(c)
    ensures var p := PreparedCondition(c);
            ResolveFast(JStr(p.field), p.fieldCache, ctx) == ResolveFast(JStr(c.field), c.fieldCache, ctx) &&
            ResolveFast(p.value, p.valueCache, ctx) == ResolveFast(c.value, c.valueCache, ctx)
  {
    FastEqualsSlow(c.field, ctx);
    if c.value.JStr? { FastEqualsSlow(c.value.s, ctx); }
  }

  lemma {:induction false} PreparationPreservesCondition(c: Condition, ctx: Context)
    requires RawCondition(c)
    ensures Met(PreparedCondition(c), ctx) <==> Met(c, ctx)
    decreases c, 1
  {
    ResolvesAlike(c, ctx);
    var left := ResolveFast(JStr(c.field), c.fieldCache, ctx);
    if c.nested.Some? && left.Some? && left.value.JArr? {
      PreparationPreservesQuantified(c, left.value.items, ctx);
    }
  }

  /** A padded field is text before preparation and a missing variable after. */
  lemma PaddedConditionExample()
    ensures
      var c := Conditions("and", [Condition(" {a}", "exists", JNull, None, NOTHING, NOTHING)], []);
      Holds(c, EmptyContext()) && !Holds(Prepared(c), EmptyContext())
  {
    var ctx, item := EmptyContext(), Condition(" {a}", "exists", JNull, None, NOTHING, NOTHING);
    var c := Conditions("and", [item], []);
    PaddedTemplateExample();
    PaddedIsLiteral(" {a}");
    assert Met(item, ctx) && c.items[0] == item;
    var p := PreparedCondition(item);
    assert Prepared(c).items[0] == p;
    assert ResolveFast(JStr(p.field), p.fieldCache, ctx) == None;
  }

  /** Preparing a prepared tree changes nothing. */
  lemma {:induction false} PreparationIdempotent(c: Conditions)
    ensures Prepared(Prepared(c)) == Prepared(c)
    decreases c
  {
    var p := Prepared(c);
    forall i | 0 <= i < |c.items| ensures PreparedCondition(p.items[i]) == p.items[i] {
      var item := c.items[i];
      assert p.items[i] == PreparedCondition(item);
      if item.nested.Some? { PreparationIdempotent(item.nested.value); }
    }
    forall i | 0 <= i < |c.groups| ensures Prepared(p.groups[i]) == p.groups[i] {
      PreparationIdempotent(c.groups[i]);
    }
    assert Prepared(p).items == p.items && Prepared(p).groups == p.groups;
  }
}
