/** The after-phase of association tracking: the temporary id of a created
    member is replaced by its real id, and every cache entry is finalised
    into one audit record (`_wrappedAfterUpdateAssociation` and the
    finalisation loops of the bulk and setter after-hooks). */
module AuditLog {
  import opened JsValues
  import opened Redaction
  import opened Correlation
  import opened TrackingCache

  /** `'UPDATE'` or `'DELETE'`. */
  datatype Kind = Update | Delete

  /** An audit record as the sink receives it: `type`, the entity's type name
      and id (which also make up `reference`), the `before` and `after`
      payloads and the acting user. */
  datatype LogEntry = LogEntry(kind: Kind, typeName: string, id: Value, before: Record, after: Record, userId: Value)

  /** An association snapshot as a JavaScript value: `''`, an object, or an
      array of objects. */
  function Render(s: Snapshot): (v: Value)
    ensures IsEmptyValue(v) <==> s == Absent
    ensures s.Listed? ==> v.Arr? && |v.items| == |s.rs| && forall i :: 0 <= i < |s.rs| ==> v.items[i] == Rec(s.rs[i])
  {
    match s
    case Absent => Blank
    case Single(r) => Rec(r)
    case Listed(rs) => Arr(seq(|rs|, i requires 0 <= i < |rs| => Rec(rs[i])))
  }

  /** `update.after[as].id = self.id` for a created member: on a single
      association the current value gets the real id; on a list the slot
      keyed by the member's scope key does. Nothing else changes. */
  function PatchCreated(e: Entry, scopeKey: string, selfId: Value): (p: Entry)
    ensures p.id == e.id && p.typeName == e.typeName && p.list == e.list && p.before == e.before
  {
    if !e.list then
      if e.after.SingleView? && e.after.current.Single? then
        e.(after := SingleView(Single(Put(e.after.current.r, "id", selfId))))
      else e
    else if e.after.ListView? then
      e.(after := ListView(MergeSlot(e.after.slots, Str(scopeKey), [Field("id", selfId)]), e.after.length))
    else e
  }

  /** The patch gives the created member its real id and touches nothing
      else: no other property, no other slot, no position, not the counter. */
  lemma PatchSetsId(e: Entry, scopeKey: string, selfId: Value)
    ensures var p := PatchCreated(e, scopeKey, selfId);
      && (!e.list && e.after.SingleView? && e.after.current.Single? ==>
            p.after.SingleView? && p.after.current.Single? &&
            forall j :: Get(p.after.current.r, j) == if j == "id" then selfId else Get(e.after.current.r, j))
      && (e.list && e.after.ListView? ==>
            p.after.ListView? && p.after.length == e.after.length && |p.after.slots| == |e.after.slots| &&
            forall i :: 0 <= i < |e.after.slots| ==>
              var s := e.after.slots[i];
              p.after.slots[i].id == s.id && p.after.slots[i].position == s.position &&
              forall j :: Get(p.after.slots[i].snapshot, j) ==
                if s.id == Str(scopeKey) && j == "id" then selfId else Get(s.snapshot, j))
  {
    if e.list && e.after.ListView? {
      var slots := e.after.slots;
      forall i | 0 <= i < |slots| ensures slots[i].id == Str(scopeKey) ==>
        Extend(slots[i].snapshot, [Field("id", selfId)]) == Put(slots[i].snapshot, "id", selfId)
      {
      }
    }
  }

  /** The patch keeps a valid after-view valid. */
  lemma PatchKeepsValid(e: Entry, scopeKey: string, selfId: Value)
    requires ViewValid(e.after)
    ensures ViewValid(PatchCreated(e, scopeKey, selfId).after)
  {
    if e.list && e.after.ListView? {
      var slots := e.after.slots;
      var r := MergeSlot(slots, Str(scopeKey), [Field("id", selfId)]);
      MergeKeepsOrder(slots, Str(scopeKey), [Field("id", selfId)], 0, Undefined);
      forall s | s in r ensures s.position < e.after.length {
        var k :| 0 <= k < |r| && r[k] == s;
        assert slots[k] in slots;
      }
    }
  }

  /** The "after" value of an entry: for a list, the surviving snapshots
      sorted by position with the tags stripped. */
  function AfterValue(e: Entry): Value {
    match e.after
    case ListView(slots, _) => Render(Listed(FinalList(slots)))
    case SingleView(current) => Render(current)
  }

  /** The finalisation of one entry into its audit record: a list keeps its
      payloads as they are; a single association's payloads go through
      `safe`, so an empty side disappears. */
  function FinalEntry(e: Entry, alias: Key, userId: Value): LogEntry {
    var before := [Field(alias, Render(e.before))];
    var after := [Field(alias, AfterValue(e))];
    if e.list then LogEntry(Update, e.typeName, e.id, before, after, userId)
    else LogEntry(Update, e.typeName, e.id, SafeFields(before, {}), SafeFields(after, {}), userId)
  }

  /** A list entry is reported with its baseline as `before` and, as `after`,
      the snapshots in slot order with every position tag and the counter
      gone; association records are always updates of the owner. */
  lemma ListRecord(e: Entry, alias: Key, userId: Value)
    requires e.list && e.after.ListView? && ViewValid(e.after)
    ensures var log := FinalEntry(e, alias, userId);
      var slots := e.after.slots;
      && log.kind == Update && log.typeName == e.typeName && log.id == e.id && log.userId == userId
      && log.before == [Field(alias, Render(e.before))]
      && log.after == [Field(alias, Arr(seq(|slots|, i requires 0 <= i < |slots| => Rec(slots[i].snapshot))))]
  {
    var slots := e.after.slots;
    FinalListInSlotOrder(slots, e.after.length);
    var v := Render(Listed(FinalList(slots)));
    assert v == Arr(seq(|slots|, i requires 0 <= i < |slots| => Rec(slots[i].snapshot)));
  }

  /** A single association is reported with an empty side when it had no
      value there (a creation has no `before`, a removal no `after`), and
      with the member's snapshot otherwise. */
  lemma SingleRecord(e: Entry, alias: Key, userId: Value)
    requires !e.list && e.after.SingleView?
    ensures var log := FinalEntry(e, alias, userId);
      && log.kind == Update && log.typeName == e.typeName && log.id == e.id && log.userId == userId
      && (log.before == [] <==> e.before == Absent)
      && (e.before.Single? ==> log.before == [Field(alias, Rec(e.before.r))])
      && (log.after == [] <==> e.after.current == Absent)
      && (e.after.current.Single? ==> log.after == [Field(alias, Rec(e.after.current.r))])
  {
    SafeSingle(alias, Render(e.before));
    SafeSingle(alias, Render(e.after.current));
  }

  /** `safe` on a one-property object keeps the property unless it is empty. */
  lemma SafeSingle(k: Key, v: Value)
    ensures SafeFields([Field(k, v)], {}) == if IsEmptyValue(v) then [] else [Field(k, v)]
  {
    assert [Field(k, v)][..0] == [];
  }

  /** The owners an association before-hook stored, if it stored any. */
  function UpdatesOf(p: Param): seq<Value> {
    if p.UpdatesParam? then p.owners else []
  }

  /** What the before-phase guarantees about the updates stored under a
      scope key: each owner once, each with a cache entry. */
  predicate Ready(params: map<string, Param>, scopeKey: string, entries: map<Value, Entry>) {
    var owners := UpdatesOf(Lookup(params, scopeKey));
    NoDups(owners) && forall o :: o in owners ==> o in entries
  }

  /** The cache after the patches of one created member: the entries of the
      given owners are patched, all others are left alone. */
  function Patched(entries: map<Value, Entry>, owners: seq<Value>, created: bool, scopeKey: string, selfId: Value): (r: map<Value, Entry>)
    ensures r.Keys == entries.Keys
  {
    map o | o in entries :: if created && o in owners then PatchCreated(entries[o], scopeKey, selfId) else entries[o]
  }

  /** Patching only ever changes after-views, and only those of the given
      owners when the member was created. */
  lemma PatchedKeeps(entries: map<Value, Entry>, owners: seq<Value>, created: bool, scopeKey: string, selfId: Value)
    ensures var r := Patched(entries, owners, created, scopeKey, selfId);
      && (forall o :: o in r ==>
            r[o].id == entries[o].id && r[o].typeName == entries[o].typeName &&
            r[o].list == entries[o].list && r[o].before == entries[o].before)
      && (forall o :: o in r && (!created || o !in owners) ==> r[o] == entries[o])
  {
  }

  /** Patching keeps the cache invariant. */
  lemma PatchedKeepsValid(entries: map<Value, Entry>, order: seq<Value>, owners: seq<Value>, created: bool,
                          scopeKey: string, selfId: Value)
    requires CacheValid(entries, order)
    ensures CacheValid(Patched(entries, owners, created, scopeKey, selfId), order)
  {
    var r := Patched(entries, owners, created, scopeKey, selfId);
    forall o | o in r ensures ViewValid(r[o].after) {
      PatchKeepsValid(entries[o], scopeKey, selfId);
    }
  }

  /** Patching the next owner of a list without repeats: its entry is still
      the original one, and after the patch it is final. */
  lemma PatchNext(entries: map<Value, Entry>, owners: seq<Value>, i: nat, created: bool, scopeKey: string, selfId: Value)
    requires NoDups(owners) && i < |owners| && owners[i] in entries
    ensures var prev := Patched(entries, owners[..i], created, scopeKey, selfId);
      var o := owners[i];
      var e := if created then PatchCreated(prev[o], scopeKey, selfId) else prev[o];
      && Patched(entries, owners[..i + 1], created, scopeKey, selfId) == (if created then prev[o := e] else prev)
      && e == Patched(entries, owners, created, scopeKey, selfId)[o]
  {
    var o := owners[i];
    assert owners[..i + 1] == owners[..i] + [o];
    assert o !in owners[..i] by {
      forall j | 0 <= j < i ensures owners[..i][j] != o {
        assert owners[j] != owners[i];
      }
    }
  }

  /** The loop of `_wrappedAfterUpdateAssociation` over the stored updates:
      each owner's entry is patched when the member was created and, with a
      sink, finalised into a record, in the order of the updates. */
  method PatchAndLog(entries0: map<Value, Entry>, owners: seq<Value>, created: bool, scopeKey: string,
                     selfId: Value, alias: Key, userId: Value, withLog: bool)
      returns (entries: map<Value, Entry>, logs: seq<LogEntry>)
    requires NoDups(owners) && forall o :: o in owners ==> o in entries0
    ensures entries == Patched(entries0, owners, created, scopeKey, selfId)
    ensures withLog ==> |logs| == |owners|
    ensures withLog ==> forall i :: 0 <= i < |owners| ==> logs[i] == FinalEntry(entries[owners[i]], alias, userId)
    ensures !withLog ==> logs == []
  {
    ghost var final := Patched(entries0, owners, created, scopeKey, selfId);
    entries := entries0;
    logs := [];
    var i := 0;
    while i < |owners|
      invariant 0 <= i <= |owners|
      invariant entries == Patched(entries0, owners[..i], created, scopeKey, selfId)
      invariant withLog ==> |logs| == i && forall j :: 0 <= j < i ==> logs[j] == FinalEntry(final[owners[j]], alias, userId)
      invariant !withLog ==> logs == []
    {
      var o := owners[i];
      PatchNext(entries0, owners, i, created, scopeKey, selfId);
      ghost var next := Patched(entries0, owners[..i + 1], created, scopeKey, selfId);
      var e := entries[o];
      if created {
        e := PatchCreated(e, scopeKey, selfId);
        entries := entries[o := e];
      }
      assert entries == next;
      assert e == final[o];
      if withLog {
        logs := logs + [FinalEntry(e, alias, userId)];
      }
      i := i + 1;
    }
    assert owners[..i] == owners;
  }

  /** `_wrappedAfterUpdateAssociation`: reads the updates stored under the
      member's scope key; if the member was created, its temporary id in
      each owner's entry becomes `selfId`; with a sink, each owner's entry
      is finalised into a record, in the order the updates were made. */
  method AfterUpdateAssociation(ctx: Context, cache: Cache, selfId: Value, keyModel: string, alias: Key, withLog: bool)
      returns (logs: seq<LogEntry>)
    requires cache.Valid()
    requires Ready(ctx.params, ctx.CurrentScopeKey(keyModel, alias), cache.entries)
    modifies cache
    ensures cache.Valid() && cache.order == old(cache.order)
    ensures var scopeKey := ctx.CurrentScopeKey(keyModel, alias);
      var p := ctx.Get(scopeKey);
      cache.entries == Patched(old(cache.entries), UpdatesOf(p), p.UpdatesParam? && p.created, scopeKey, selfId)
    ensures var owners := UpdatesOf(ctx.Get(ctx.CurrentScopeKey(keyModel, alias)));
      && (withLog ==> (|logs| == |owners| &&
            forall i :: 0 <= i < |owners| ==> logs[i] == FinalEntry(cache.entries[owners[i]], alias, ctx.userId)))
      && (!withLog ==> logs == [])
  {
    var scopeKey := ctx.CurrentScopeKey(keyModel, alias);
    var p := ctx.Get(scopeKey);
    var owners := UpdatesOf(p);
    var created := p.UpdatesParam? && p.created;
    PatchedKeepsValid(cache.entries, cache.order, owners, created, scopeKey, selfId);
    var entries;
    entries, logs := PatchAndLog(cache.entries, owners, created, scopeKey, selfId, alias, ctx.userId, withLog);
    cache.entries := entries;
  }
}
