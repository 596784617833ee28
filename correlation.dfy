/** Correlation between the before-phase and the after-phase of a hook:
    the scope key (`getScopeKey` / `setScopeKey`), the trigger
    classification (`isSetter`, `isAddSetter`, `isRemoveSetter`) and the
    per-operation context in which payloads are stored under those keys. */
module Correlation {
  import opened JsValues

  function Digit(d: nat): char
    requires d < 10
  {
    "0123456789"[d]
  }

  /** The decimal rendering of a disambiguator inside a template string. */
  function Decimal(n: nat): (s: string)
    ensures |s| >= 1 && (|s| == 1 <==> n < 10)
    ensures forall i :: 0 <= i < |s| ==> '0' <= s[i] <= '9'
  {
    if n < 10 then [Digit(n)] else Decimal(n / 10) + [Digit(n % 10)]
  }

  /** Different numbers render differently. */
  lemma {:induction false} DecimalInjective(m: nat, n: nat)
    requires Decimal(m) == Decimal(n)
    ensures m == n
  {
    if m < 10 || n < 10 {
      assert m < 10 && n < 10;
      assert Digit(m) == Decimal(m)[0] == Decimal(n)[0] == Digit(n);
    } else {
      var sm, sn := Decimal(m / 10), Decimal(n / 10);
      assert Decimal(m) == sm + [Digit(m % 10)] && Decimal(n) == sn + [Digit(n % 10)];
      assert |sm| == |sn|;
      assert sm == Decimal(m)[..|sm|] == Decimal(n)[..|sn|] == sn;
      assert Digit(m % 10) == Decimal(m)[|sm|] == Decimal(n)[|sn|] == Digit(n % 10);
      DecimalInjective(m / 10, n / 10);
    }
  }

  /** The disambiguator `getScopeKey` falls back on when none was set. */
  const DefaultSlot: nat := 1

  /** The trigger-parameter name under which `setScopeKey` stores the disambiguator. */
  function SlotParamName(modelName: string, alias: string): string {
    modelName + "-" + alias + "-tracking-scope"
  }

  /** `getScopeKey`'s result for a given stored disambiguator. */
  function ScopeKey(modelName: string, alias: string, slot: Option<nat>): (key: string)
    ensures var tail := Decimal(if slot.Some? then slot.value else DefaultSlot);
      |tail| <= |key| && key[|key| - |tail|..] == tail
  {
    alias + "-" + modelName + "-tracking-" + Decimal(if slot.Some? then slot.value else DefaultSlot)
  }

  /** Items of one bulk call that were given different disambiguators never
      share a scope key. */
  lemma ScopeKeysDistinct(modelName: string, alias: string, i: nat, j: nat)
    requires i != j
    ensures ScopeKey(modelName, alias, Some(i)) != ScopeKey(modelName, alias, Some(j))
  {
    var prefix := alias + "-" + modelName + "-tracking-";
    if ScopeKey(modelName, alias, Some(i)) == ScopeKey(modelName, alias, Some(j)) {
      assert prefix + Decimal(i) == prefix + Decimal(j);
      assert Decimal(i) == (prefix + Decimal(i))[|prefix|..] == (prefix + Decimal(j))[|prefix|..] == Decimal(j);
      DecimalInjective(i, j);
    }
  }

  /** A scope key ends in a digit, the slot parameter name in `scope`, so a
      payload stored under a scope key never overwrites a disambiguator. */
  lemma ScopeKeyIsNotSlotName(modelName: string, alias: string, slot: Option<nat>, m: string, a: string)
    ensures ScopeKey(modelName, alias, slot) != SlotParamName(m, a)
  {
    var key := ScopeKey(modelName, alias, slot);
    var tail := Decimal(if slot.Some? then slot.value else DefaultSlot);
    assert '0' <= key[|key| - 1] <= '9' by {
      assert key[|key| - 1] == key[|key| - |tail|..][|tail| - 1] == tail[|tail| - 1];
    }
    var name := SlotParamName(m, a);
    assert name[|name| - 1] == 'e';
  }

  predicate StartsWith(s: string, prefix: string) {
    |prefix| <= |s| && s[..|prefix|] == prefix
  }

  /** `isSetter`: the trigger is an association add, set or remove. */
  predicate IsSetter(trigger: string) {
    StartsWith(trigger, "add") || StartsWith(trigger, "set") || StartsWith(trigger, "remove")
  }

  /** `isAddSetter`: the trigger is an association add. */
  predicate IsAddSetter(trigger: string) {
    StartsWith(trigger, "add")
  }

  /** `isRemoveSetter`: the trigger is an association remove. */
  predicate IsRemoveSetter(trigger: string) {
    StartsWith(trigger, "remove")
  }

  /** The destroy triggers, single and bulk. */
  predicate IsDestroy(trigger: string) {
    trigger == "DESTROY" || trigger == "BULKDESTROY"
  }

  /** Add and remove setters are setters, no trigger is both, and the
      remaining setters are exactly the `set` ones. */
  lemma SetterKinds(trigger: string)
    ensures IsAddSetter(trigger) ==> IsSetter(trigger)
    ensures IsRemoveSetter(trigger) ==> IsSetter(trigger)
    ensures !(IsAddSetter(trigger) && IsRemoveSetter(trigger))
    ensures IsSetter(trigger) && !IsAddSetter(trigger) && !IsRemoveSetter(trigger) ==> StartsWith(trigger, "set")
  {
    assert IsAddSetter(trigger) ==> trigger[0] == 'a';
    assert IsRemoveSetter(trigger) ==> trigger[0] == 'r';
  }

  /** A destroy trigger is never a setter, so direct hooks handle it. */
  lemma DestroyIsNotSetter(trigger: string)
    requires IsDestroy(trigger)
    ensures !IsSetter(trigger)
  {
    assert trigger[0] == 'D' || trigger[0] == 'B';
  }

  /** What a hook stores in the operation context. */
  datatype Param =
      /** `{ key }` written by `setScopeKey`. */
    | SlotParam(key: nat)
      /** `{ before, after, trackingKey }` written by the direct before-hook. */
    | ChangesParam(before: Record, after: Record)
      /** `{}` written by the direct before-hook when nothing changed. */
    | NoChangesParam
      /** `{ updates, trackingKey, created }` written by the association
          before-hook; each update is named by the owner id of its cache entry. */
    | UpdatesParam(owners: seq<Value>, created: bool)

  /** `getTriggerParams` on a parameter map: an absent parameter reads as `{}`. */
  function Lookup(params: map<string, Param>, name: string): (p: Param)
    ensures name !in params ==> p == NoChangesParam
    ensures name in params ==> p == params[name]
  {
    if name in params then params[name] else NoChangesParam
  }

  /** Reading a parameter back: a fresh context holds `{}` everywhere, a
      stored payload reads back as stored, and storing under one name
      leaves every other name as it was. */
  lemma LookupAfterStore(params: map<string, Param>, name: string, other: string, p: Param)
    ensures Lookup(map[], name) == NoChangesParam
    ensures Lookup(params[name := p], name) == p
    ensures other != name ==> Lookup(params[name := p], other) == Lookup(params, other)
  {
  }

  /** The operation context (`options`): the trigger type, the acting user
      and the trigger parameters the hooks exchange. */
  class Context {
    const trigger: string
    const userId: Value
    var params: map<string, Param>

    constructor (trigger: string, userId: Value)
      ensures this.trigger == trigger && this.userId == userId
      ensures params == map[]
    {
      this.trigger := trigger;
      this.userId := userId;
      params := map[];
    }

    /** `getTriggerParams`. */
    function Get(name: string): Param
      reads this
    {
      Lookup(params, name)
    }

    /** `setTriggerParams`. */
    method Set(name: string, p: Param)
      modifies this
      ensures params == old(params)[name := p]
    {
      params := params[name := p];
    }

    /** `getScopeKey(model, options, as)`. */
    function CurrentScopeKey(modelName: string, alias: string): (key: string)
      reads this
    {
      var p := Get(SlotParamName(modelName, alias));
      ScopeKey(modelName, alias, if p.SlotParam? then Some(p.key) else None)
    }

    /** `setScopeKey(model, options, key, as)`: later reads of the scope key
        for this model and alias see the given disambiguator. */
    method SetScopeKey(modelName: string, alias: string, key: nat)
      modifies this
      ensures params == old(params)[SlotParamName(modelName, alias) := SlotParam(key)]
      ensures CurrentScopeKey(modelName, alias) == ScopeKey(modelName, alias, Some(key))
    {
      params := params[SlotParamName(modelName, alias) := SlotParam(key)];
    }
  }
}
