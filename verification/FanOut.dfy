/** forEach expansion of an action (internal/rule/processor.go:141-204 and
    internal/rule/processor.go:1305-1415). */
module FanOut {
  import opened Text
  import opened Ascending
  import opened Json
  import opened Conditionals
  import Paths

  /** prepareForEachPath */
  function PrepareForEachPath(template: string): Option<seq<string>> {
    var name := ExtractVariable(template);
    if name == "" || name[0] == '@' || '{' in name then None else Paths.SplitPath(name)
  }

  /** extractForEachArray; None is its error. */
  function ExtractArray(template: string, precomputed: Option<seq<string>>, limit: int, ctx: Context)
    : Option<seq<Json>>
  {
    var name := ExtractVariable(template);
    if name == "" then None
    else
      var path := if precomputed.Some? then precomputed else Paths.SplitPath(name);
      var v := if name[0] == '@' then ResolveValue(name, ctx)
               else if path.None? then None else Read(JObj(ctx.msg), path.value);
      if v.None? || !v.value.JArr? || (limit > 0 && |v.value.items| > limit) then None
      else Some(v.value.items)
  }

  /** The array found is what the template's path reads: from the system for a '@'
      name, else from the message along the path's segments; it must be an array,
      and within a positive limit. */
  lemma ArrayFoundIff(template: string, limit: int, ctx: Context, items: seq<Json>)
    ensures var name := ExtractVariable(template);
            ExtractArray(template, None, limit, ctx) == Some(items) <==>
            name != "" && (limit <= 0 || |items| <= limit) &&
            if name[0] == '@' then ctx.system(name, ctx.msg) == Some(JArr(items))
            else Paths.SplitPath(name).Some? && Read(JObj(ctx.msg), Paths.SplitPath(name).value) == Some(JArr(items))
  {
  }

  /** The name is what stands between the braces. */
  lemma VariableOf(name: string)
    requires Trim(name) == name != ""
    ensures ExtractVariable("{" + name + "}") == name
  {
    var t := "{" + name + "}";
    assert !IsSpace(t[0]) && !IsSpace(t[|t| - 1]);
    assert t[1..|t| - 1] == name;
  }

  /** Preparing a forEach path never changes which array is found. */
  lemma PreparedForEachAlike(template: string, limit: int, ctx: Context)
    ensures ExtractArray(template, PrepareForEachPath(template), limit, ctx) == ExtractArray(template, None, limit, ctx)
  {
  }

  /** `build` stands for payload, header and subject templating of one element;
      None is a failed element. */
  datatype ForEach = ForEach(
    template: string,
    path: Option<seq<string>>,
    filter: Option<Conditions>,
    build: (Context, nat) -> Option<Json>)

  ghost predicate Passes(cfg: ForEach, item: Json, ctx: Context) {
    cfg.filter.Some? ==> Holds(cfg.filter.value, WithElement(ctx, item))
  }

  /** The element passes the filter and does not fail. */
  ghost predicate Yields(cfg: ForEach, item: Json, ctx: Context, i: nat) {
    Passes(cfg, item, ctx) && cfg.build(WithElement(ctx, item), i).Some?
  }

  /** `kept` are the positions, in order, of the elements that give an action. */
  ghost predicate Image(cfg: ForEach, items: seq<Json>, ctx: Context, kept: seq<nat>, actions: seq<Json>) {
    |actions| == |kept| &&
    Increasing(kept) &&
    (forall k :: 0 <= k < |kept| ==>
      kept[k] < |items| && Passes(cfg, items[kept[k]], ctx) &&
      cfg.build(WithElement(ctx, items[kept[k]]), kept[k]) == Some(actions[k])) &&
    (forall i :: 0 <= i < |items| && Yields(cfg, items[i], ctx, i) ==> i in kept)
  }

  datatype Counts = Counts(total: nat, processed: nat, filtered: nat, failed: nat)

  /** How many of the first `n` elements the filter drops. */
  ghost function Dropped(cfg: ForEach, items: seq<Json>, ctx: Context, n: nat): nat
    requires n <= |items|
  {
    if n == 0 then 0
    else Dropped(cfg, items, ctx, n - 1) + if Passes(cfg, items[n - 1], ctx) then 0 else 1
  }

  method FilterElement(cfg: ForEach, item: Json, ctx: Context) returns (pass: bool)
    ensures pass <==> Passes(cfg, item, ctx)
  {
    pass := true;
    if cfg.filter.Some? {
      pass := Evaluate(cfg.filter.value, WithElement(ctx, item));
    }
  }

  method ProcessActionForEach(cfg: ForEach, limit: int, ctx: Context)
    returns (actions: Option<seq<Json>>, counts: Counts, ghost kept: seq<nat>)
    ensures actions.Some? <==> ExtractArray(cfg.template, cfg.path, limit, ctx).Some?
    ensures actions.Some? ==>
              var items := ExtractArray(cfg.template, cfg.path, limit, ctx).value;
              Image(cfg, items, ctx, kept, actions.value) && Adds(counts, cfg, items, ctx, actions.value) &&
              (limit > 0 ==> |actions.value| <= limit) &&
              forall i :: 0 <= i < |items| ==>
                (i in kept <==>
                 (cfg.filter.Some? ==> Holds(cfg.filter.value, WithElement(ctx, items[i]))) &&
                 cfg.build(WithElement(ctx, items[i]), i).Some?)
  {
    var found := ExtractArray(cfg.template, cfg.path, limit, ctx);
    if found.None? {
      return None, Counts(0, 0, 0, 0), [];
    }
    var out;
    out, counts, kept := ExpandElements(cfg, found.value, ctx);
    actions := Some(out);
  }

  ghost predicate Adds(counts: Counts, cfg: ForEach, items: seq<Json>, ctx: Context, actions: seq<Json>) {
    counts.total == |items| && counts.processed == |actions| &&
    counts.filtered == Dropped(cfg, items, ctx, |items|) &&
    counts.total == counts.processed + counts.filtered + counts.failed
  }

  method ExpandElements(cfg: ForEach, items: seq<Json>, ctx: Context)
    returns (out: seq<Json>, counts: Counts, ghost kept: seq<nat>)
    ensures Image(cfg, items, ctx, kept, out) && Adds(counts, cfg, items, ctx, out)
  {
    out, kept := [], [];
    var processed, filtered, failed := 0, 0, 0;
    assert items[..0] == [];
    for i := 0 to |items|
      invariant Image(cfg, items[..i], ctx, kept, out)
      invariant processed == |out| && filtered == Dropped(cfg, items, ctx, i)
      invariant i == processed + filtered + failed
    {
      var pass := FilterElement(cfg, items[i], ctx);
      ImageStep(cfg, items[..i], items[i], ctx, kept, out);
      assert items[..i + 1] == items[..i] + [items[i]];
      if !pass {
        filtered := filtered + 1;
        continue;
      }
      var built := cfg.build(WithElement(ctx, items[i]), i);
      if built.None? {
        failed := failed + 1;
        continue;
      }
      out, processed, kept := out + [built.value], processed + 1, kept + [i];
    }
    assert items[..|items|] == items;
    counts := Counts(|items|, processed, filtered, failed);
  }

  lemma ImageStep(cfg: ForEach, items: seq<Json>, item: Json, ctx: Context, kept: seq<nat>, actions: seq<Json>)
    requires Image(cfg, items, ctx, kept, actions)
    ensures var built := cfg.build(WithElement(ctx, item), |items|);
            if Passes(cfg, item, ctx) && built.Some?
            then Image(cfg, items + [item], ctx, kept + [|items|], actions + [built.value])
            else Image(cfg, items + [item], ctx, kept, actions)
  {
  }

  /** The image leaves no freedom: neither the positions nor the actions. */
  lemma ImageUnique(cfg: ForEach, items: seq<Json>, ctx: Context,
                    kept: seq<nat>, actions: seq<Json>, kept': seq<nat>, actions': seq<Json>)
    requires Image(cfg, items, ctx, kept, actions) && Image(cfg, items, ctx, kept', actions')
    ensures kept == kept' && actions == actions'
  {
    forall i ensures i in kept <==> i in kept' {
    }
    IncreasingUnique(kept, kept');
  }
}
