/** The after-phase of the bulk and setter association hooks
    (`wrappedAfterBulkUpdateAssociation` for both `afterBulkUpdateAssociation`
    and `afterNonThroughSetter`): each instance's stored updates are patched
    under its own disambiguator, then the whole shared cache is finalised
    into one record per owner. */
module BatchAudit {
  import opened JsValues
  import opened Correlation
  import opened TrackingCache
  import opened AssociationHooks
  import opened AuditLog

  /** A member's updates name each owner once, and once the member has been
      tracked each of those owners has a cache entry. */
  lemma MemberReady(entries: map<Value, Entry>, self: Instance, key: Key, destroyed: bool, tempId: Value,
                    scope: Scope, db: map<Value, seq<Record>>)
    ensures var cs := MemberContributions(self, key, destroyed);
      var r := TrackAll(entries, cs, self.values, tempId, self.changed, scope, db);
      NoDups(Owners(cs)) && forall o :: o in Owners(cs) ==> o in r
  {
    var cs := MemberContributions(self, key, destroyed);
    if Relevant(self, destroyed) {
      ContributionRules(Get(self.values, key), Get(self.previous, key), destroyed);
    }
    forall o | o in Owners(cs) ensures o in TrackAll(entries, cs, self.values, tempId, self.changed, scope, db) {
      TrackAllFrame(entries, cs, self.values, tempId, self.changed, scope, db, o);
    }
  }

  /** Later instances of a batch never drop an owner from the cache. */
  lemma {:induction false} BatchKeysGrow(instances: seq<Instance>, m: nat, key: Key, keyModel: string, scope: Scope,
                                         db: map<Value, seq<Record>>, destroyed: bool, o: Value)
    requires m <= |instances|
    requires o in BatchEntries(instances[..m], key, keyModel, scope, db, destroyed)
    ensures o in BatchEntries(instances, key, keyModel, scope, db, destroyed)
    decreases |instances|
  {
    if m < |instances| {
      var n := |instances| - 1;
      var self := instances[n];
      assert instances[..n][..m] == instances[..m];
      BatchKeysGrow(instances[..n], m, key, keyModel, scope, db, destroyed, o);
      BatchNext(instances, n, key, keyModel, scope, db, destroyed);
      assert instances[..n + 1] == instances;
      TrackAllFrame(BatchEntries(instances[..n], key, keyModel, scope, db, destroyed),
                    MemberContributions(self, key, destroyed), self.values,
                    TempId(self, ScopeKey(keyModel, scope.alias, Some(n))), self.changed, scope, db, o);
    } else {
      assert instances[..m] == instances;
    }
  }

  /** After the before-phase of a whole batch, the updates stored under every
      instance's scope key name distinct owners that all have a cache entry,
      which is what the after-phase relies on. An instance with nothing to
      record stored nothing, so its key must not carry an earlier payload. */
  lemma BatchReady(params: map<string, Param>, instances: seq<Instance>, i: nat, key: Key, keyModel: string,
                   scope: Scope, db: map<Value, seq<Record>>, destroyed: bool)
    requires i < |instances|
    requires Published(params, instances, |instances|, key, keyModel, scope.alias, destroyed)
    requires Relevant(instances[i], destroyed) || ScopeKey(keyModel, scope.alias, Some(i)) !in params
    ensures Ready(params, ScopeKey(keyModel, scope.alias, Some(i)), BatchEntries(instances, key, keyModel, scope, db, destroyed))
  {
    var k := ScopeKey(keyModel, scope.alias, Some(i));
    if Relevant(instances[i], destroyed) {
      var owners := Owners(MemberContributions(instances[i], key, destroyed));
      assert Lookup(params, k) == UpdatesParam(owners, Created(instances[i]));
      OwnersTracked(instances, i, key, keyModel, scope, db, destroyed);
    }
  }

  /** The owners an instance of a batch contributes to are distinct and all
      have a cache entry once the whole batch has been tracked. */
  lemma OwnersTracked(instances: seq<Instance>, i: nat, key: Key, keyModel: string,
                      scope: Scope, db: map<Value, seq<Record>>, destroyed: bool)
    requires i < |instances|
    ensures var owners := Owners(MemberContributions(instances[i], key, destroyed));
      NoDups(owners) && forall o :: o in owners ==> o in BatchEntries(instances, key, keyModel, scope, db, destroyed)
  {
    var self := instances[i];
    var tempId := TempId(self, ScopeKey(keyModel, scope.alias, Some(i)));
    var prev := BatchEntries(instances[..i], key, keyModel, scope, db, destroyed);
    BatchNext(instances, i, key, keyModel, scope, db, destroyed);
    MemberReady(prev, self, key, destroyed, tempId, scope, db);
    var owners := Owners(MemberContributions(self, key, destroyed));
    forall o | o in owners ensures o in BatchEntries(instances, key, keyModel, scope, db, destroyed) {
      BatchKeysGrow(instances, i + 1, key, keyModel, scope, db, destroyed, o);
    }
  }

  /** The cache after the after-phase of the first instances of a batch:
      instance `i`, with id `ids[i]`, patches the owners it stored under
      disambiguator `i`. */
  function AfterBatchEntries(entries: map<Value, Entry>, params: map<string, Param>, ids: seq<Value>,
                             keyModel: string, alias: Key): (r: map<Value, Entry>)
    ensures r.Keys == entries.Keys
    ensures forall o :: o in r ==>
      r[o].id == entries[o].id && r[o].typeName == entries[o].typeName &&
      r[o].list == entries[o].list && r[o].before == entries[o].before
    decreases |ids|
  {
    if ids == [] then entries
    else
      var n := |ids| - 1;
      var k := ScopeKey(keyModel, alias, Some(n));
      var p := Lookup(params, k);
      var prev := AfterBatchEntries(entries, params, ids[..n], keyModel, alias);
      PatchedKeeps(prev, UpdatesOf(p), p.UpdatesParam? && p.created, k, ids[n]);
      Patched(prev, UpdatesOf(p), p.UpdatesParam? && p.created, k, ids[n])
  }

  /** The after-phase of the next instance patches the owners it stored. */
  lemma AfterBatchNext(entries: map<Value, Entry>, params: map<string, Param>, ids: seq<Value>, i: nat,
                       keyModel: string, alias: Key)
    requires i < |ids|
    ensures var k := ScopeKey(keyModel, alias, Some(i));
      var p := Lookup(params, k);
      AfterBatchEntries(entries, params, ids[..i + 1], keyModel, alias) ==
        Patched(AfterBatchEntries(entries, params, ids[..i], keyModel, alias), UpdatesOf(p),
                p.UpdatesParam? && p.created, k, ids[i])
  {
    assert ids[..i + 1][..i] == ids[..i];
  }

  /** A patch leaves the payloads the after-phase relies on in place. */
  lemma ReadyKept(params: map<string, Param>, params': map<string, Param>, k: string,
                  entries: map<Value, Entry>, entries': map<Value, Entry>)
    requires Ready(params, k, entries)
    requires Lookup(params', k) == Lookup(params, k) && entries'.Keys == entries.Keys
    ensures Ready(params', k, entries')
  {
    assert UpdatesOf(Lookup(params', k)) == UpdatesOf(Lookup(params, k));
  }

  /** One iteration of the after loop: `setScopeKey(model, options, i, as)`
      and the after-phase of instance `i`, without a sink. */
  method AfterBatchStep(ctx: Context, cache: Cache, ids: seq<Value>, i: nat, keyModel: string, alias: Key,
                        ghost entries0: map<Value, Entry>, ghost params0: map<string, Param>)
    requires i < |ids| && cache.Valid()
    requires Ready(params0, ScopeKey(keyModel, alias, Some(i)), entries0)
    requires cache.entries == AfterBatchEntries(entries0, params0, ids[..i], keyModel, alias)
    requires ctx.params == if i == 0 then params0 else params0[SlotParamName(keyModel, alias) := SlotParam(i - 1)]
    modifies ctx, cache
    ensures cache.Valid() && cache.order == old(cache.order)
    ensures cache.entries == AfterBatchEntries(entries0, params0, ids[..i + 1], keyModel, alias)
    ensures ctx.params == params0[SlotParamName(keyModel, alias) := SlotParam(i)]
  {
    var k := ScopeKey(keyModel, alias, Some(i));
    var slot := SlotParamName(keyModel, alias);
    AfterBatchNext(entries0, params0, ids, i, keyModel, alias);
    ctx.SetScopeKey(keyModel, alias, i);
    assert ctx.params == params0[slot := SlotParam(i)];
    ScopeKeyIsNotSlotName(keyModel, alias, Some(i), keyModel, alias);
    ReadyKept(params0, ctx.params, k, entries0, cache.entries);
    assert ctx.Get(k) == Lookup(params0, k);
    var _ := AfterUpdateAssociation(ctx, cache, ids[i], keyModel, alias, false);
  }

  /** `_.each(cache, …)` of the bulk and setter after-hooks: every entry of
      the shared cache, in order, becomes its record. */
  method FinaliseAll(entries: map<Value, Entry>, order: seq<Value>, alias: Key, userId: Value)
      returns (logs: seq<LogEntry>)
    requires forall o :: o in order ==> o in entries
    ensures |logs| == |order|
    ensures forall i :: 0 <= i < |order| ==> logs[i] == FinalEntry(entries[order[i]], alias, userId)
  {
    logs := [];
    var i := 0;
    while i < |order|
      invariant 0 <= i <= |order| && |logs| == i
      invariant forall j :: 0 <= j < i ==> logs[j] == FinalEntry(entries[order[j]], alias, userId)
    {
      RecordsSnoc(logs, FinalEntry(entries[order[i]], alias, userId), entries, order, alias, userId);
      logs := logs + [FinalEntry(entries[order[i]], alias, userId)];
      i := i + 1;
    }
  }

  /** One more finalised record extends the records of the first owners. */
  lemma RecordsSnoc(logs: seq<LogEntry>, next: LogEntry, entries: map<Value, Entry>, order: seq<Value>,
                    alias: Key, userId: Value)
    requires |logs| < |order| && forall o :: o in order ==> o in entries
    requires next == FinalEntry(entries[order[|logs|]], alias, userId)
    requires forall j :: 0 <= j < |logs| ==> logs[j] == FinalEntry(entries[order[j]], alias, userId)
    ensures forall j :: 0 <= j <= |logs| ==> (logs + [next])[j] == FinalEntry(entries[order[j]], alias, userId)
  {
  }

  /** `wrappedAfterBulkUpdateAssociation` (bulk and setter forms): each
      instance in turn, under its own disambiguator, patches its owners'
      entries; then every owner in the shared cache is reported once, in
      the order the owners were first touched. */
  method AfterBatchAssociation(ctx: Context, cache: Cache, ids: seq<Value>, keyModel: string, alias: Key)
      returns (logs: seq<LogEntry>)
    requires cache.Valid()
    requires forall i :: 0 <= i < |ids| ==> Ready(ctx.params, ScopeKey(keyModel, alias, Some(i)), cache.entries)
    modifies ctx, cache
    ensures cache.Valid() && cache.order == old(cache.order)
    ensures cache.entries == AfterBatchEntries(old(cache.entries), old(ctx.params), ids, keyModel, alias)
    ensures |ids| > 0 ==> ctx.params == old(ctx.params)[SlotParamName(keyModel, alias) := SlotParam(|ids| - 1)]
    ensures |ids| == 0 ==> ctx.params == old(ctx.params)
    ensures |logs| == |cache.order|
    ensures forall i :: 0 <= i < |logs| ==> logs[i] == FinalEntry(cache.entries[cache.order[i]], alias, ctx.userId)
  {
    ghost var entries0 := cache.entries;
    ghost var params0 := ctx.params;
    var i := 0;
    while i < |ids|
      invariant 0 <= i <= |ids|
      invariant cache.Valid() && cache.order == old(cache.order)
      invariant cache.entries == AfterBatchEntries(entries0, params0, ids[..i], keyModel, alias)
      invariant ctx.params == if i == 0 then params0 else params0[SlotParamName(keyModel, alias) := SlotParam(i - 1)]
    {
      AfterBatchStep(ctx, cache, ids, i, keyModel, alias, entries0, params0);
      i := i + 1;
    }
    assert ids[..i] == ids;
    logs := FinaliseAll(cache.entries, cache.order, alias, ctx.userId);
  }

  /** Whatever the patches did, every owner in the cache still carries its
      own id, the association's type and cardinality and the baseline the
      database held for it before the batch. */
  lemma BatchAuditBaseline(instances: seq<Instance>, key: Key, keyModel: string, scope: Scope,
                           db: map<Value, seq<Record>>, destroyed: bool, params: map<string, Param>,
                           ids: seq<Value>, o: Value)
    ensures var r := AfterBatchEntries(BatchEntries(instances, key, keyModel, scope, db, destroyed),
                                       params, ids, keyModel, scope.alias);
      o in r ==>
        && Truthy(o) && r[o].id == o && r[o].typeName == scope.name && r[o].list == scope.list
        && r[o].before == BaselineOf(scope, Rows(db, o))
  {
    BatchBaseline(instances, key, keyModel, scope, db, destroyed, o);
  }

  /** The finalisation reports every owner of the cache exactly once: no two
      records share an owner id, and each cached owner has a record. */
  lemma RecordsPerOwner(entries: map<Value, Entry>, order: seq<Value>, alias: Key, userId: Value, logs: seq<LogEntry>)
    requires CacheValid(entries, order)
    requires forall o :: o in entries ==> entries[o].id == o
    requires |logs| == |order|
    requires forall i :: 0 <= i < |order| ==> logs[i] == FinalEntry(entries[order[i]], alias, userId)
    ensures forall i, j :: 0 <= i < j < |logs| ==> logs[i].id != logs[j].id
    ensures forall o :: o in entries <==> exists i :: 0 <= i < |logs| && logs[i].id == o
  {
    forall i | 0 <= i < |logs| ensures logs[i].id == order[i] {
      assert order[i] in entries;
    }
    forall o | o in entries ensures exists i :: 0 <= i < |logs| && logs[i].id == o {
      var i :| 0 <= i < |order| && order[i] == o;
      assert logs[i].id == o;
    }
  }
}
