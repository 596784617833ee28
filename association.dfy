/** The before-phase of association tracking: which owner entries a member
    change contributes to (`_wrappedBeforeUpdateAssociation`), and the bulk
    driver that runs it once per instance over one shared cache. */
module AssociationHooks {
  import opened JsValues
  import opened Redaction
  import opened Correlation
  import opened TrackingCache

  /** A member instance as the hooks see it: its current values, the values
      it was loaded with (`previous`) and its changed keys. */
  datatype Instance = Instance(values: Record, previous: Record, changed: seq<Key>)

  /** `!self.id`: the instance is being created. */
  predicate Created(self: Instance) {
    !Truthy(IdOf(self.values))
  }

  /** `changes.length || created || destroyed`: the member has something to record. */
  predicate Relevant(self: Instance, destroyed: bool) {
    |self.changed| > 0 || Created(self) || destroyed
  }

  /** One `track` call: an owner and the transition its association undergoes. */
  datatype Contribution = Contribution(owner: Value, change: Change)

  /** The owner contributions of a member whose foreign key is `current` now
      and was `previous`. */
  function Contributions(current: Value, previous: Value, destroyed: bool): (cs: seq<Contribution>)
    ensures |cs| <= 2
  {
    if destroyed then
      (if Truthy(current) then [Contribution(current, Removed)] else [])
    else if current != previous then
      (if Truthy(previous) then [Contribution(previous, Removed)] else [])
        + (if Truthy(current) then [Contribution(current, Added)] else [])
    else if Truthy(current) then [Contribution(current, Updated)]
    else []
  }

  /** A destroy removes the member from its current owner; a changed key
      removes it from the previous owner and then adds it to the new one; an
      unchanged key updates it in place. Null owners get nothing, and no
      owner is touched twice. */
  lemma ContributionRules(current: Value, previous: Value, destroyed: bool)
    ensures var cs := Contributions(current, previous, destroyed);
      && (forall i :: 0 <= i < |cs| ==> Truthy(cs[i].owner))
      && (forall i, j :: 0 <= i < j < |cs| ==> cs[i].owner != cs[j].owner && cs[i].change == Removed)
      && (forall o :: Contribution(o, Removed) in cs <==>
            Truthy(o) && (if destroyed then o == current else o == previous && previous != current))
      && (forall o :: Contribution(o, Added) in cs <==> Truthy(o) && !destroyed && o == current && current != previous)
      && (forall o :: Contribution(o, Updated) in cs <==> Truthy(o) && !destroyed && o == current && current == previous)
  {
  }

  /** The contributions of a member under a trigger; none when nothing changed. */
  function MemberContributions(self: Instance, key: Key, destroyed: bool): seq<Contribution> {
    if Relevant(self, destroyed) then Contributions(Get(self.values, key), Get(self.previous, key), destroyed)
    else []
  }

  /** The temporary id of a member being created: its scope key. */
  function TempId(self: Instance, scopeKey: string): Value {
    if Created(self) then Str(scopeKey) else Undefined
  }

  /** The rows the database holds as an owner's association (none for an
      unknown owner). */
  function Rows(db: map<Value, seq<Record>>, owner: Value): seq<Record> {
    if owner in db then db[owner] else []
  }

  /** `scope.get(id)`: the redacted visible projection of the owner's current
      members, or `''` for an empty single association. */
  function BaselineOf(scope: Scope, rows: seq<Record>): (s: Snapshot)
    ensures scope.list ==> s.Listed? && |s.rs| == |rows|
    ensures scope.list ==> forall i :: 0 <= i < |rows| ==> s.rs[i] == MemberSnapshot(scope, rows[i], scope.attributes)
    ensures !scope.list ==> (s == Absent <==> rows == [])
  {
    if scope.list then Listed(seq(|rows|, i requires 0 <= i < |rows| => MemberSnapshot(scope, rows[i], scope.attributes)))
    else if rows == [] then Absent
    else Single(MemberSnapshot(scope, rows[0], scope.attributes))
  }

  /** The cache entries after a sequence of `track` calls for one member. */
  function TrackAll(entries: map<Value, Entry>, cs: seq<Contribution>, member: Record, tempId: Value,
                    changes: seq<Key>, scope: Scope, db: map<Value, seq<Record>>): map<Value, Entry>
    decreases |cs|
  {
    if cs == [] then entries
    else
      var n := |cs| - 1;
      var prev := TrackAll(entries, cs[..n], member, tempId, changes, scope, db);
      var o := cs[n].owner;
      prev[o := TrackEntry(EntryOf(prev, o), o, member, tempId, changes, cs[n].change, scope,
                           BaselineOf(scope, Rows(db, o)))]
  }

  /** The first-touch order after the owners of `cs` have been touched. */
  function EnrolAll(order: seq<Value>, cs: seq<Contribution>): seq<Value>
    decreases |cs|
  {
    if cs == [] then order
    else
      var prev := EnrolAll(order, cs[..|cs| - 1]);
      var o := cs[|cs| - 1].owner;
      if o in prev then prev else prev + [o]
  }

  function Owners(cs: seq<Contribution>): (owners: seq<Value>)
    ensures |owners| == |cs|
    ensures forall i :: 0 <= i < |cs| ==> owners[i] == cs[i].owner
  {
    seq(|cs|, i requires 0 <= i < |cs| => cs[i].owner)
  }

  lemma OwnersSnoc(cs: seq<Contribution>, c: Contribution)
    ensures Owners(cs + [c]) == Owners(cs) + [c.owner]
  {
    var a, b := Owners(cs + [c]), Owners(cs) + [c.owner];
    forall i | 0 <= i < |a| ensures a[i] == b[i] {
      if i < |cs| { assert (cs + [c])[i] == cs[i]; }
    }
  }

  /** The contributions of a member create or change the entries of their
      own owners and no others. */
  lemma {:induction false} TrackAllFrame(entries: map<Value, Entry>, cs: seq<Contribution>, member: Record,
                                         tempId: Value, changes: seq<Key>, scope: Scope,
                                         db: map<Value, seq<Record>>, o: Value)
    ensures var r := TrackAll(entries, cs, member, tempId, changes, scope, db);
      && (o in r <==> o in entries || o in Owners(cs))
      && (o !in Owners(cs) ==> EntryOf(r, o) == EntryOf(entries, o))
    decreases |cs|
  {
    if cs != [] {
      var n := |cs| - 1;
      OwnersSnoc(cs[..n], cs[n]);
      assert cs[..n] + [cs[n]] == cs;
      TrackAllFrame(entries, cs[..n], member, tempId, changes, scope, db, o);
    }
  }

  /** `track` fixes an owner's identity and baseline on its first touch and
      never changes them afterwards: an owner already touched keeps its
      entry's id, type, cardinality and `before`; an owner first touched by
      these contributions gets the baseline the database holds for it. */
  lemma {:induction false} BaselineFixedAtFirstTouch(entries: map<Value, Entry>, cs: seq<Contribution>, member: Record,
                                                     tempId: Value, changes: seq<Key>, scope: Scope,
                                                     db: map<Value, seq<Record>>, o: Value)
    requires forall i :: 0 <= i < |cs| ==> Truthy(cs[i].owner)
    ensures var r := TrackAll(entries, cs, member, tempId, changes, scope, db);
      && (Touched(EntryOf(entries, o)) ==>
            && o in r && r[o].id == entries[o].id && r[o].typeName == entries[o].typeName
            && r[o].list == entries[o].list && r[o].before == entries[o].before)
      && (!Touched(EntryOf(entries, o)) && o in Owners(cs) ==>
            && o in r && r[o].id == o && r[o].typeName == scope.name
            && r[o].list == scope.list && r[o].before == BaselineOf(scope, Rows(db, o)))
    decreases |cs|
  {
    TrackAllFrame(entries, cs, member, tempId, changes, scope, db, o);
    if cs != [] {
      var n := |cs| - 1;
      OwnersSnoc(cs[..n], cs[n]);
      assert cs[..n] + [cs[n]] == cs;
      BaselineFixedAtFirstTouch(entries, cs[..n], member, tempId, changes, scope, db, o);
      TrackAllFrame(entries, cs[..n], member, tempId, changes, scope, db, o);
      var prev := TrackAll(entries, cs[..n], member, tempId, changes, scope, db);
      var p := cs[n].owner;
      var e := TrackEntry(EntryOf(prev, p), p, member, tempId, changes, cs[n].change, scope, BaselineOf(scope, Rows(db, p)));
      assert TrackAll(entries, cs, member, tempId, changes, scope, db) == prev[p := e];
      if o == p && (Touched(EntryOf(entries, o)) || o in Owners(cs[..n])) {
        assert Touched(EntryOf(prev, o));
      }
    }
  }

  /** `cache[cacheId] = cache[cacheId] || {}; updates.push(track(...))`: one
      contribution tracked in the shared cache, its owner appended to `updates`. */
  method TrackOwner(cache: Cache, c: Contribution, member: Record, tempId: Value, changes: seq<Key>,
                    scope: Scope, db: map<Value, seq<Record>>, owners: seq<Value>,
                    ghost entries0: map<Value, Entry>, ghost order0: seq<Value>, ghost done: seq<Contribution>)
      returns (owners': seq<Value>)
    requires cache.Valid()
    requires cache.entries == TrackAll(entries0, done, member, tempId, changes, scope, db)
    requires cache.order == EnrolAll(order0, done)
    requires owners == Owners(done)
    modifies cache
    ensures cache.Valid()
    ensures cache.entries == TrackAll(entries0, done + [c], member, tempId, changes, scope, db)
    ensures cache.order == EnrolAll(order0, done + [c])
    ensures owners' == Owners(done + [c])
  {
    TrackSnoc(entries0, order0, done, c, member, tempId, changes, scope, db);
    OwnersSnoc(done, c);
    cache.Track(c.owner, member, tempId, changes, c.change, scope, BaselineOf(scope, Rows(db, c.owner)));
    owners' := owners + [c.owner];
  }

  /** Tracking one more contribution is one more step of `TrackAll`, `EnrolAll` and `Owners`. */
  lemma TrackSnoc(entries: map<Value, Entry>, order: seq<Value>, done: seq<Contribution>, c: Contribution,
                  member: Record, tempId: Value, changes: seq<Key>, scope: Scope, db: map<Value, seq<Record>>)
    ensures var prev := TrackAll(entries, done, member, tempId, changes, scope, db);
      TrackAll(entries, done + [c], member, tempId, changes, scope, db) ==
        prev[c.owner := TrackEntry(EntryOf(prev, c.owner), c.owner, member, tempId, changes, c.change, scope,
                                   BaselineOf(scope, Rows(db, c.owner)))]
    ensures var prev := EnrolAll(order, done);
      EnrolAll(order, done + [c]) == if c.owner in prev then prev else prev + [c.owner]
  {
    assert (done + [c])[..|done|] == done;
  }

  /** The branches of `_wrappedBeforeUpdateAssociation` that call `track`:
      a destroyed member leaves its current owner; a moved member leaves
      its previous owner and joins the new one; otherwise its current owner
      records an update. Null owners are skipped. */
  method TrackContributions(cache: Cache, current: Value, previous: Value, destroyed: bool, member: Record,
                            tempId: Value, changes: seq<Key>, scope: Scope, db: map<Value, seq<Record>>)
      returns (owners: seq<Value>)
    requires cache.Valid()
    modifies cache
    ensures cache.Valid()
    ensures cache.entries == TrackAll(old(cache.entries), Contributions(current, previous, destroyed),
                                      member, tempId, changes, scope, db)
    ensures cache.order == EnrolAll(old(cache.order), Contributions(current, previous, destroyed))
    ensures owners == Owners(Contributions(current, previous, destroyed))
  {
    ghost var cs := Contributions(current, previous, destroyed);
    ghost var entries0, order0 := cache.entries, cache.order;
    ghost var done: seq<Contribution> := [];
    owners := [];
    if destroyed {
      if Truthy(current) {
        owners := TrackOwner(cache, Contribution(current, Removed), member, tempId, changes, scope, db,
                             owners, entries0, order0, done);
        done := done + [Contribution(current, Removed)];
      }
    } else if current != previous {
      if Truthy(previous) {
        owners := TrackOwner(cache, Contribution(previous, Removed), member, tempId, changes, scope, db,
                             owners, entries0, order0, done);
        done := done + [Contribution(previous, Removed)];
      }
      if Truthy(current) {
        owners := TrackOwner(cache, Contribution(current, Added), member, tempId, changes, scope, db,
                             owners, entries0, order0, done);
        done := done + [Contribution(current, Added)];
      }
    } else if Truthy(current) {
      owners := TrackOwner(cache, Contribution(current, Updated), member, tempId, changes, scope, db,
                           owners, entries0, order0, done);
      done := done + [Contribution(current, Updated)];
    }
    assert done == cs;
  }

  /** `_wrappedBeforeUpdateAssociation`: tracks the member's contributions in
      the shared cache and stores the touched owners under the member's scope
      key; a member with nothing to record leaves cache and context alone.
      `keyModel` names the model whose scope key correlates the two phases. */
  method BeforeUpdateAssociation(ctx: Context, cache: Cache, self: Instance, key: Key, keyModel: string,
                                 scope: Scope, db: map<Value, seq<Record>>)
    requires cache.Valid()
    modifies ctx, cache
    ensures cache.Valid()
    ensures var cs := MemberContributions(self, key, IsDestroy(ctx.trigger));
      var tempId := TempId(self, old(ctx.CurrentScopeKey(keyModel, scope.alias)));
      && cache.entries == TrackAll(old(cache.entries), cs, self.values, tempId, self.changed, scope, db)
      && cache.order == EnrolAll(old(cache.order), cs)
    ensures !Relevant(self, IsDestroy(ctx.trigger)) ==> ctx.params == old(ctx.params)
    ensures Relevant(self, IsDestroy(ctx.trigger)) ==>
      ctx.params == old(ctx.params)[old(ctx.CurrentScopeKey(keyModel, scope.alias)) :=
        UpdatesParam(Owners(MemberContributions(self, key, IsDestroy(ctx.trigger))), Created(self))]
  {
    var destroyed := IsDestroy(ctx.trigger);
    if !Relevant(self, destroyed) {
      return;
    }
    var scopeKey := ctx.CurrentScopeKey(keyModel, scope.alias);
    var owners := TrackContributions(cache, Get(self.values, key), Get(self.previous, key), destroyed,
                                     self.values, TempId(self, scopeKey), self.changed, scope, db);
    ctx.Set(scopeKey, UpdatesParam(owners, Created(self)));
  }

  /** The cache after the before-phase has run over the first instances of a
      batch, instance `i` holding disambiguator `i`. */
  function BatchEntries(instances: seq<Instance>, key: Key, keyModel: string, scope: Scope,
                        db: map<Value, seq<Record>>, destroyed: bool): map<Value, Entry>
    decreases |instances|
  {
    if instances == [] then map[]
    else
      var n := |instances| - 1;
      var self := instances[n];
      TrackAll(BatchEntries(instances[..n], key, keyModel, scope, db, destroyed),
               MemberContributions(self, key, destroyed), self.values,
               TempId(self, ScopeKey(keyModel, scope.alias, Some(n))), self.changed, scope, db)
  }

  /** The owners of the batch cache in the order they were first touched. */
  function BatchOrder(instances: seq<Instance>, key: Key, destroyed: bool): seq<Value>
    decreases |instances|
  {
    if instances == [] then []
    else
      var n := |instances| - 1;
      EnrolAll(BatchOrder(instances[..n], key, destroyed), MemberContributions(instances[n], key, destroyed))
  }

  /** The updates of the first `n` instances of a batch with something to
      record are stored under their own scope keys. */
  ghost predicate Published(params: map<string, Param>, instances: seq<Instance>, n: nat, key: Key,
                            keyModel: string, alias: string, destroyed: bool)
    requires n <= |instances|
  {
    forall j :: 0 <= j < n && Relevant(instances[j], destroyed) ==>
      var k := ScopeKey(keyModel, alias, Some(j));
      k in params && params[k] == UpdatesParam(Owners(MemberContributions(instances[j], key, destroyed)), Created(instances[j]))
  }

  /** Setting the next disambiguator and storing the next instance's updates
      under its own scope key leaves the earlier instances' updates alone. */
  lemma PublishNext(params: map<string, Param>, params': map<string, Param>, instances: seq<Instance>, i: nat,
                    key: Key, keyModel: string, alias: string, destroyed: bool)
    requires i < |instances| && Published(params, instances, i, key, keyModel, alias, destroyed)
    requires var mid := params[SlotParamName(keyModel, alias) := SlotParam(i)];
      var k := ScopeKey(keyModel, alias, Some(i));
      if Relevant(instances[i], destroyed)
      then params' == mid[k := UpdatesParam(Owners(MemberContributions(instances[i], key, destroyed)), Created(instances[i]))]
      else params' == mid
    ensures Published(params', instances, i + 1, key, keyModel, alias, destroyed)
  {
    forall j | 0 <= j < i
      ensures ScopeKey(keyModel, alias, Some(j)) != ScopeKey(keyModel, alias, Some(i))
      ensures ScopeKey(keyModel, alias, Some(j)) != SlotParamName(keyModel, alias)
    {
      ScopeKeysDistinct(keyModel, alias, j, i);
      ScopeKeyIsNotSlotName(keyModel, alias, Some(j), keyModel, alias);
    }
  }

  lemma BatchNext(instances: seq<Instance>, i: nat, key: Key, keyModel: string, scope: Scope,
                  db: map<Value, seq<Record>>, destroyed: bool)
    requires i < |instances|
    ensures var self := instances[i];
      var cs := MemberContributions(self, key, destroyed);
      && BatchEntries(instances[..i + 1], key, keyModel, scope, db, destroyed) ==
           TrackAll(BatchEntries(instances[..i], key, keyModel, scope, db, destroyed), cs, self.values,
                    TempId(self, ScopeKey(keyModel, scope.alias, Some(i))), self.changed, scope, db)
      && BatchOrder(instances[..i + 1], key, destroyed) == EnrolAll(BatchOrder(instances[..i], key, destroyed), cs)
  {
    assert instances[..i + 1][..i] == instances[..i];
  }

  /** One iteration of the batch loop: `setScopeKey(model, options, i, as)`
      followed by the before-phase of instance `i`. */
  method BeforeBatchStep(ctx: Context, cache: Cache, instances: seq<Instance>, i: nat, key: Key, keyModel: string,
                         scope: Scope, db: map<Value, seq<Record>>)
    requires i < |instances| && cache.Valid()
    requires cache.entries == BatchEntries(instances[..i], key, keyModel, scope, db, IsDestroy(ctx.trigger))
    requires cache.order == BatchOrder(instances[..i], key, IsDestroy(ctx.trigger))
    requires Published(ctx.params, instances, i, key, keyModel, scope.alias, IsDestroy(ctx.trigger))
    modifies ctx, cache
    ensures cache.Valid()
    ensures cache.entries == BatchEntries(instances[..i + 1], key, keyModel, scope, db, IsDestroy(ctx.trigger))
    ensures cache.order == BatchOrder(instances[..i + 1], key, IsDestroy(ctx.trigger))
    ensures Published(ctx.params, instances, i + 1, key, keyModel, scope.alias, IsDestroy(ctx.trigger))
    ensures ctx.CurrentScopeKey(keyModel, scope.alias) == ScopeKey(keyModel, scope.alias, Some(i))
  {
    ghost var params0 := ctx.params;
    ghost var entries0, order0 := cache.entries, cache.order;
    ghost var k := ScopeKey(keyModel, scope.alias, Some(i));
    ghost var self := instances[i];
    ghost var cs := MemberContributions(self, key, IsDestroy(ctx.trigger));
    BatchNext(instances, i, key, keyModel, scope, db, IsDestroy(ctx.trigger));
    ctx.SetScopeKey(keyModel, scope.alias, i);
    assert ctx.CurrentScopeKey(keyModel, scope.alias) == k;
    ScopeKeyIsNotSlotName(keyModel, scope.alias, Some(i), keyModel, scope.alias);
    BeforeUpdateAssociation(ctx, cache, instances[i], key, keyModel, scope, db);
    assert cache.entries == TrackAll(entries0, cs, self.values, TempId(self, k), self.changed, scope, db);
    assert cache.order == EnrolAll(order0, cs);
    PublishNext(params0, ctx.params, instances, i, key, keyModel, scope.alias, IsDestroy(ctx.trigger));
  }

  /** The loop shared by `wrappedBeforeBulkUpdateAssociation` and
      `wrappedBeforeNonThroughSetter`: each instance gets its own
      disambiguator and runs the before-phase against one shared cache, so
      every owner has one entry however many members touch it. */
  method BeforeBatchAssociation(ctx: Context, instances: seq<Instance>, key: Key, keyModel: string,
                                scope: Scope, db: map<Value, seq<Record>>) returns (cache: Cache)
    modifies ctx
    ensures fresh(cache) && cache.Valid()
    ensures cache.entries == BatchEntries(instances, key, keyModel, scope, db, IsDestroy(ctx.trigger))
    ensures cache.order == BatchOrder(instances, key, IsDestroy(ctx.trigger))
    ensures Published(ctx.params, instances, |instances|, key, keyModel, scope.alias, IsDestroy(ctx.trigger))
    ensures |instances| > 0 ==>
      ctx.CurrentScopeKey(keyModel, scope.alias) == ScopeKey(keyModel, scope.alias, Some(|instances| - 1))
  {
    cache := new Cache();
    var i := 0;
    while i < |instances|
      invariant 0 <= i <= |instances|
      invariant fresh(cache) && cache.Valid()
      invariant cache.entries == BatchEntries(instances[..i], key, keyModel, scope, db, IsDestroy(ctx.trigger))
      invariant cache.order == BatchOrder(instances[..i], key, IsDestroy(ctx.trigger))
      invariant Published(ctx.params, instances, i, key, keyModel, scope.alias, IsDestroy(ctx.trigger))
      invariant i > 0 ==> ctx.CurrentScopeKey(keyModel, scope.alias) == ScopeKey(keyModel, scope.alias, Some(i - 1))
    {
      BeforeBatchStep(ctx, cache, instances, i, key, keyModel, scope, db);
      i := i + 1;
    }
    assert instances[..i] == instances;
  }

  /** Only real owners receive contributions. */
  lemma MemberOwnersTruthy(self: Instance, key: Key, destroyed: bool)
    ensures var cs := MemberContributions(self, key, destroyed);
      forall i :: 0 <= i < |cs| ==> Truthy(cs[i].owner)
  {
    ContributionRules(Get(self.values, key), Get(self.previous, key), destroyed);
  }

  /** Across a whole batch, every owner in the cache is a real owner whose
      entry carries its own id, the association's type and cardinality and
      the baseline the database held for it, however many members touched it. */
  lemma {:induction false} BatchBaseline(instances: seq<Instance>, key: Key, keyModel: string, scope: Scope,
                                         db: map<Value, seq<Record>>, destroyed: bool, o: Value)
    ensures var r := BatchEntries(instances, key, keyModel, scope, db, destroyed);
      o in r ==>
        && Truthy(o) && r[o].id == o && r[o].typeName == scope.name && r[o].list == scope.list
        && r[o].before == BaselineOf(scope, Rows(db, o))
    decreases |instances|
  {
    if instances != [] {
      var n := |instances| - 1;
      var self := instances[n];
      var prev := BatchEntries(instances[..n], key, keyModel, scope, db, destroyed);
      var cs := MemberContributions(self, key, destroyed);
      var tempId := TempId(self, ScopeKey(keyModel, scope.alias, Some(n)));
      var r := TrackAll(prev, cs, self.values, tempId, self.changed, scope, db);
      assert BatchEntries(instances, key, keyModel, scope, db, destroyed) == r by {
        BatchNext(instances, n, key, keyModel, scope, db, destroyed);
        assert instances[..n + 1] == instances;
      }
      if o in r {
        MemberOwnersTruthy(self, key, destroyed);
        TrackAllFrame(prev, cs, self.values, tempId, self.changed, scope, db, o);
        BaselineFixedAtFirstTouch(prev, cs, self.values, tempId, self.changed, scope, db, o);
        if o in prev {
          BatchBaseline(instances[..n], key, keyModel, scope, db, destroyed, o);
          assert Touched(EntryOf(prev, o));
        }
      }
    }
  }
}
