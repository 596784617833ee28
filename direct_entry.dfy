/** The direct hooks of an entity (`_wrappedBeforeUpdate` and
    `_wrappedAfterUpdate`): the before-phase captures the previous and the
    new values of the changed attributes; the after-phase turns them into
    one `UPDATE` or `DELETE` record holding only the visible attributes
    whose redacted values differ. */
module DirectHooks {
  import opened JsValues
  import opened Redaction
  import opened ChangeDetector
  import opened Correlation
  import opened AssociationHooks
  import opened AuditLog

  /** The direct hooks pass no association name, so it renders as
      `undefined` in their scope keys. */
  const NoAlias: string := "undefined"

  /** `obj[key] = source(key)` for each listed key, starting from `{}`: the
      listed keys, each with its value in `source` (`undefined` if none). */
  function Capture(source: Record, keys: seq<Key>): (r: Record)
    ensures WellKeyed(r)
    ensures forall j :: Has(r, j) <==> j in keys
    ensures forall j :: Get(r, j) == if j in keys then Get(source, j) else Undefined
    decreases |keys|
  {
    if keys == [] then []
    else
      var n := |keys| - 1;
      assert keys == keys[..n] + [keys[n]];
      var p := Capture(source, keys[..n]);
      assert KeysOf(Put(p, keys[n], Get(source, keys[n]))) == KeysOf(p) ||
             KeysOf(Put(p, keys[n], Get(source, keys[n]))) == KeysOf(p) + [keys[n]];
      Put(p, keys[n], Get(source, keys[n]))
  }

  /** What the before-phase stores for an instance: the previous and the
      current values of its changed attributes when it has changes, is
      being created or is being destroyed, and `{}` otherwise. */
  function DirectParam(self: Instance, trigger: string): Param {
    if Relevant(self, IsDestroy(trigger)) then ChangesParam(Capture(self.previous, self.changed), Capture(self.values, self.changed))
    else NoChangesParam
  }

  /** The `_.each(changes, …)` of the before-phase: `after[key] = self[key]`
      and `before[key] = self.previous(key)` for each changed key. */
  method CaptureChanges(self: Instance) returns (before: Record, after: Record)
    ensures before == Capture(self.previous, self.changed)
    ensures after == Capture(self.values, self.changed)
  {
    before, after := [], [];
    var i := 0;
    while i < |self.changed|
      invariant 0 <= i <= |self.changed|
      invariant before == Capture(self.previous, self.changed[..i])
      invariant after == Capture(self.values, self.changed[..i])
    {
      var key := self.changed[i];
      assert self.changed[..i + 1][..i] == self.changed[..i];
      after := Put(after, key, Get(self.values, key));
      before := Put(before, key, Get(self.previous, key));
      i := i + 1;
    }
    assert self.changed[..i] == self.changed;
  }

  /** `_wrappedBeforeUpdate`: stores the payload under the model's scope key. */
  method BeforeUpdate(ctx: Context, self: Instance, modelName: string)
    modifies ctx
    ensures var scopeKey := old(ctx.CurrentScopeKey(modelName, NoAlias));
      ctx.params == old(ctx.params)[scopeKey := DirectParam(self, ctx.trigger)]
    ensures ctx.CurrentScopeKey(modelName, NoAlias) == old(ctx.CurrentScopeKey(modelName, NoAlias))
    ensures ctx.Get(ctx.CurrentScopeKey(modelName, NoAlias)) == DirectParam(self, ctx.trigger)
  {
    var scopeKey := ctx.CurrentScopeKey(modelName, NoAlias);
    var p := ctx.Get(SlotParamName(modelName, NoAlias));
    ScopeKeyIsNotSlotName(modelName, NoAlias, if p.SlotParam? then Some(p.key) else None, modelName, NoAlias);
    if Relevant(self, IsDestroy(ctx.trigger)) {
      var before, after := CaptureChanges(self);
      ctx.Set(scopeKey, ChangesParam(before, after));
    } else {
      ctx.Set(scopeKey, NoChangesParam);
    }
  }

  /** `safe(_.pick(obj, attributes), model)`. */
  function Visible(obj: Record, attributes: seq<Key>, hidden: set<Key>): Record {
    SafeFields(Project(obj, attributes), hidden)
  }

  /** `_wrappedAfterUpdate` on the payload found under the scope key:
      nothing without a tracking key; otherwise one record, a `DELETE` for a
      destroy and an `UPDATE` otherwise, whose `before` and `after` list
      exactly the keys whose visible, redacted values differ, a side that
      lacks the key showing `''`. */
  function DirectRecord(p: Param, trigger: string, userId: Value, selfId: Value, typeName: string,
                        attributes: seq<Key>, hidden: set<Key>): (r: Option<LogEntry>)
    ensures r.None? <==> !p.ChangesParam?
    ensures r.Some? ==> (r.value.kind == Delete <==> IsDestroy(trigger))
    ensures r.Some? ==> r.value.typeName == typeName && r.value.id == selfId && r.value.userId == userId
    ensures r.Some? ==>
      var b := Visible(p.before, attributes, hidden);
      var a := Visible(p.after, attributes, hidden);
      && KeysOf(r.value.before) == KeysOf(r.value.after) == DifferentKeys(b, a)
      && (forall k :: Has(r.value.before, k) <==> (Has(b, k) || Has(a, k)) && Get(b, k) != Get(a, k))
      && (forall k :: Has(r.value.before, k) ==>
            Get(r.value.before, k) == (if Has(b, k) then Get(b, k) else Blank) &&
            Get(r.value.after, k) == (if Has(a, k) then Get(a, k) else Blank))
  {
    if !p.ChangesParam? then None
    else
      var b := Visible(p.before, attributes, hidden);
      var a := Visible(p.after, attributes, hidden);
      var keys := DifferentKeys(b, a);
      Some(LogEntry(if IsDestroy(trigger) then Delete else Update, typeName, selfId,
                    PickOrBlank(b, keys), PickOrBlank(a, keys), userId))
  }

  /** How one attribute value looks once `safe` has run: gone when empty,
      `'[redacted]'` when hidden, itself otherwise. */
  function Shown(k: Key, v: Value, hidden: set<Key>): Value {
    if IsEmptyValue(v) then Undefined else Masked(k, v, hidden)
  }

  /** The visible, redacted projection has exactly the listed attributes
      with a non-empty value, each as `Shown`. */
  lemma VisibleGet(obj: Record, attributes: seq<Key>, hidden: set<Key>, k: Key)
    ensures var v := Visible(obj, attributes, hidden);
      && (Has(v, k) <==> k in attributes && !IsEmptyValue(Get(obj, k)))
      && Get(v, k) == if k in attributes then Shown(k, Get(obj, k), hidden) else Undefined
  {
    var pr := Project(obj, attributes);
    var v := SafeFields(pr, hidden);
    SafeFieldsGet(pr, hidden, k);
    if Has(v, k) {
      var i := IndexOf(KeysOf(v), k);
      GetAt(v, i);
      assert !IsEmptyValue(v[i].val);
    }
  }

  /** A record is produced exactly for an instance with changes, a creation
      or a destruction. */
  lemma RecordIffRelevant(self: Instance, trigger: string, userId: Value, selfId: Value, typeName: string,
                          attributes: seq<Key>, hidden: set<Key>)
    ensures DirectRecord(DirectParam(self, trigger), trigger, userId, selfId, typeName, attributes, hidden).Some?
      <==> Relevant(self, IsDestroy(trigger))
  {
  }

  /** The attributes an entity record reports are exactly the changed,
      visible attributes whose shown values differ; each side shows the
      shown value, or `''` where that side had none. */
  lemma ReportedAttributes(self: Instance, trigger: string, userId: Value, selfId: Value, typeName: string,
                           attributes: seq<Key>, hidden: set<Key>, k: Key)
    requires Relevant(self, IsDestroy(trigger))
    ensures var r := DirectRecord(DirectParam(self, trigger), trigger, userId, selfId, typeName, attributes, hidden);
      var was := Get(self.previous, k);
      var now := Get(self.values, k);
      && r.Some?
      && (Has(r.value.before, k) <==>
            k in self.changed && k in attributes && Shown(k, was, hidden) != Shown(k, now, hidden))
      && (Has(r.value.before, k) ==>
            Get(r.value.before, k) == (if IsEmptyValue(was) then Blank else Masked(k, was, hidden)) &&
            Get(r.value.after, k) == (if IsEmptyValue(now) then Blank else Masked(k, now, hidden)))
  {
    var p := DirectParam(self, trigger);
    VisibleGet(p.before, attributes, hidden, k);
    VisibleGet(p.after, attributes, hidden, k);
  }

  /** A hidden attribute that had a value and still has one is never
      reported, whatever it changed to: both sides show `'[redacted]'`. */
  lemma HiddenChangeNotReported(self: Instance, trigger: string, userId: Value, selfId: Value, typeName: string,
                                attributes: seq<Key>, hidden: set<Key>, k: Key)
    requires Relevant(self, IsDestroy(trigger)) && k in hidden
    requires !IsEmptyValue(Get(self.previous, k)) && !IsEmptyValue(Get(self.values, k))
    ensures var r := DirectRecord(DirectParam(self, trigger), trigger, userId, selfId, typeName, attributes, hidden);
      r.Some? && !Has(r.value.before, k) && !Has(r.value.after, k)
  {
    ReportedAttributes(self, trigger, userId, selfId, typeName, attributes, hidden, k);
  }

  /** The record of a created instance, which has no loaded values: it is an
      `UPDATE`, it reports exactly the changed visible attributes given a
      value, and every one of them shows `''` as its `before` value. */
  lemma CreatedRecord(self: Instance, trigger: string, userId: Value, selfId: Value, typeName: string,
                      attributes: seq<Key>, hidden: set<Key>, k: Key)
    requires Created(self) && self.previous == [] && !IsDestroy(trigger)
    ensures var r := DirectRecord(DirectParam(self, trigger), trigger, userId, selfId, typeName, attributes, hidden);
      var now := Get(self.values, k);
      && r.Some? && r.value.kind == Update
      && (Has(r.value.before, k) <==> k in self.changed && k in attributes && !IsEmptyValue(now))
      && (Has(r.value.before, k) ==> Get(r.value.before, k) == Blank && Get(r.value.after, k) == Masked(k, now, hidden))
  {
    ReportedAttributes(self, trigger, userId, selfId, typeName, attributes, hidden, k);
    assert IsEmptyValue(Get(self.previous, k));
    var now := Get(self.values, k);
    assert !IsEmptyValue(now) ==> Shown(k, now, hidden) != Undefined;
  }
}
