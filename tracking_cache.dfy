/** The tracking cache: one entry per owner id, holding the association's
    "before" baseline (fixed at first touch) and an "after" working view that
    member contributions change (`track`), and the finalisation that turns a
    list view into a plain ordered list. */
module TrackingCache {
  import opened JsValues
  import opened Redaction

  /** The resolved scope of one tracked association: the owner model's name,
      the alias, the cardinality, and the target's hidden and visible attributes. */
  datatype Scope = Scope(name: string, alias: Key, list: bool, hidden: set<Key>, attributes: seq<Key>)

  /** What a member contribution does to its owner's association. */
  datatype Change = Added | Removed | Updated

  /** A redacted association value as `scope.get` returns it: `''` when there
      is none, one object, or the list of member objects. */
  datatype Snapshot = Absent | Single(r: Record) | Listed(rs: seq<Record>)

  /** One member of a list view: `after[as][id]` together with its `__position` tag. */
  datatype Slot = Slot(id: Value, snapshot: Record, position: nat)

  /** `after[as]`: for a list association the members keyed by id plus the
      `length` counter, otherwise the current single value. */
  datatype AfterView = ListView(slots: seq<Slot>, length: nat) | SingleView(current: Snapshot)

  /** A cache entry `{ id, type, list, before, after }`; `before` and `after`
      hold the one alias of the scope, so only `before[as]` and `after[as]` are kept. */
  datatype Entry = Entry(id: Value, typeName: string, list: bool, before: Snapshot, after: AfterView)

  function IdOf(r: Record): Value {
    Get(r, "id")
  }

  /** `delete after[as][id]`. */
  function Drop(slots: seq<Slot>, id: Value): (r: seq<Slot>)
    ensures |r| <= |slots|
    ensures forall s :: s in r <==> s in slots && s.id != id
    decreases |slots|
  {
    if slots == [] then []
    else if slots[0].id == id then Drop(slots[1..], id)
    else [slots[0]] + Drop(slots[1..], id)
  }

  /** `after[as][id] = snapshot; after[as][id].__position = position`: the
      member's slot, if any, is replaced by the new one, kept last. */
  function PutSlot(slots: seq<Slot>, id: Value, snapshot: Record, position: nat): seq<Slot> {
    Drop(slots, id) + [Slot(id, snapshot, position)]
  }

  /** `_.extend(after[as][id], changes)`; a member without a slot is left alone. */
  function MergeSlot(slots: seq<Slot>, id: Value, changes: Record): (r: seq<Slot>)
    ensures |r| == |slots|
    ensures forall i :: 0 <= i < |slots| ==>
      r[i] == if slots[i].id == id then slots[i].(snapshot := Extend(slots[i].snapshot, changes)) else slots[i]
  {
    seq(|slots|, i requires 0 <= i < |slots| =>
      if slots[i].id == id then slots[i].(snapshot := Extend(slots[i].snapshot, changes)) else slots[i])
  }

  /** Every slot lies after `position` and belongs to another member than `id`. */
  predicate Above(slots: seq<Slot>, position: int, id: Value) {
    forall s :: s in slots ==> position < s.position && s.id != id
  }

  /** Slots in strictly increasing position order, one per member id. */
  predicate InOrder(slots: seq<Slot>)
    decreases |slots|
  {
    slots != [] ==> Above(slots[1..], slots[0].position, slots[0].id) && InOrder(slots[1..])
  }

  /** A list view as `track` keeps it: one slot per member id, slots in
      increasing position order, every position below the `length` counter. */
  predicate ListViewValid(slots: seq<Slot>, length: nat) {
    InOrder(slots) && forall s :: s in slots ==> s.position < length
  }

  predicate ViewValid(view: AfterView) {
    view.ListView? ==> ListViewValid(view.slots, view.length)
  }

  /** The loop of `track` that builds the list view from the baseline: each
      member in turn gets the next position and the counter goes up. */
  function BaselineView(items: seq<Record>): (view: AfterView)
    ensures view.ListView? && view.length == |items|
    decreases |items|
  {
    if items == [] then ListView([], 0)
    else
      var n := |items| - 1;
      var prev := BaselineView(items[..n]);
      ListView(PutSlot(prev.slots, IdOf(items[n]), items[n], prev.length), prev.length + 1)
  }

  /** The members of a list snapshot (for a list association `scope.get`
      always yields an array). */
  function Members(s: Snapshot): seq<Record> {
    if s.Listed? then s.rs else []
  }

  /** The "after" view derived from the baseline at first touch: the id-keyed
      positions for a list, a copy of the value otherwise. */
  function InitialView(scope: Scope, baseline: Snapshot): AfterView {
    if scope.list then BaselineView(Members(baseline)) else SingleView(baseline)
  }

  /** `safe(_.pick(instance, keys), target)`: the redacted projection of a member. */
  function MemberSnapshot(scope: Scope, member: Record, keys: seq<Key>): Record {
    SafeFields(Project(member, keys), scope.hidden)
  }

  /** `instance.toJSON()` with the temporary id of a member that has no id yet. */
  function MemberRecord(instance: Record, tempId: Value): (m: Record)
    ensures Truthy(IdOf(instance)) ==> m == instance
    ensures !Truthy(IdOf(instance)) ==> IdOf(m) == tempId
  {
    if Truthy(IdOf(instance)) then instance else Put(instance, "id", tempId)
  }

  /** The three transitions of `track` on the "after" view. */
  function Apply(view: AfterView, change: Change, member: Record, changes: seq<Key>, scope: Scope): AfterView {
    var id := IdOf(member);
    match view
    case ListView(slots, length) =>
      (match change
       case Removed => ListView(Drop(slots, id), length)
       case Added => ListView(PutSlot(slots, id, MemberSnapshot(scope, member, scope.attributes), length), length + 1)
       case Updated => ListView(MergeSlot(slots, id, MemberSnapshot(scope, member, changes)), length))
    case SingleView(current) =>
      (match change
       case Removed => SingleView(Absent)
       case Added => SingleView(Single(MemberSnapshot(scope, member, scope.attributes)))
       case Updated =>
         if current.Single? then SingleView(Single(Extend(current.r, MemberSnapshot(scope, member, changes))))
         else view)
  }

  /** `cache[id]`: the entry held for an owner, if any. */
  function EntryOf(entries: map<Value, Entry>, id: Value): Option<Entry> {
    if id in entries then Some(entries[id]) else None
  }

  /** `!!cache.id`: the entry has been touched before. */
  predicate Touched(existing: Option<Entry>) {
    existing.Some? && Truthy(existing.value.id)
  }

  /** The entry `track` leaves for an owner, given what the cache held for it:
      identity, type, cardinality and baseline are set on the first touch only. */
  function TrackEntry(existing: Option<Entry>, ownerId: Value, instance: Record, tempId: Value,
                      changes: seq<Key>, change: Change, scope: Scope, baseline: Snapshot): (e: Entry)
    ensures Touched(existing) ==>
      && e.id == existing.value.id && e.typeName == existing.value.typeName && e.list == existing.value.list
      && e.before == existing.value.before
    ensures !Touched(existing) ==>
      e.id == ownerId && e.typeName == scope.name && e.list == scope.list && e.before == baseline
  {
    Contribute(BaseEntry(existing, ownerId, scope, baseline), instance, tempId, changes, change, scope)
  }

  /** One contribution applied to an entry's after-view. */
  function Contribute(base: Entry, instance: Record, tempId: Value, changes: seq<Key>, change: Change, scope: Scope): Entry {
    base.(after := Apply(base.after, change, MemberRecord(instance, tempId), changes, scope))
  }

  /** The entry before the contribution is applied: the cached one, or a
      fresh one initialised from the baseline. */
  function BaseEntry(existing: Option<Entry>, ownerId: Value, scope: Scope, baseline: Snapshot): Entry {
    if Touched(existing) then existing.value
    else Entry(ownerId, scope.name, scope.list, baseline, InitialView(scope, baseline))
  }

  /** Slots in non-decreasing position order. */
  predicate ByPosition(slots: seq<Slot>) {
    forall i, j :: 0 <= i < j < |slots| ==> slots[i].position <= slots[j].position
  }

  /** `_.sortBy(..., v => v.__position)`: a stable insertion sort on positions. */
  function SortByPosition(slots: seq<Slot>): (r: seq<Slot>)
    ensures |r| == |slots|
    decreases |slots|
  {
    if slots == [] then [] else InsertByPosition(slots[0], SortByPosition(slots[1..]))
  }

  /** Inserts before the first element that is not earlier, so ties keep
      their original order. */
  function InsertByPosition(x: Slot, sorted: seq<Slot>): (r: seq<Slot>)
    ensures |r| == |sorted| + 1
    decreases |sorted|
  {
    if sorted == [] || x.position <= sorted[0].position then [x] + sorted
    else [sorted[0]] + InsertByPosition(x, sorted[1..])
  }

  /** The sort puts the slots in position order and keeps exactly the same slots. */
  lemma {:induction false} SortByPositionSorts(slots: seq<Slot>)
    ensures ByPosition(SortByPosition(slots))
    ensures multiset(SortByPosition(slots)) == multiset(slots)
    decreases |slots|
  {
    if slots != [] {
      SortByPositionSorts(slots[1..]);
      InsertByPositionSorts(slots[0], SortByPosition(slots[1..]));
      assert slots == [slots[0]] + slots[1..];
    }
  }

  /** Inserting into a position-ordered list keeps it ordered and adds exactly
      the inserted slot. */
  lemma {:induction false} InsertByPositionSorts(x: Slot, sorted: seq<Slot>)
    ensures multiset(InsertByPosition(x, sorted)) == multiset(sorted) + multiset{x}
    ensures ByPosition(sorted) ==> ByPosition(InsertByPosition(x, sorted))
    decreases |sorted|
  {
    if sorted != [] && sorted[0].position < x.position {
      var rest := InsertByPosition(x, sorted[1..]);
      InsertByPositionSorts(x, sorted[1..]);
      assert sorted == [sorted[0]] + sorted[1..];
      if ByPosition(sorted) {
        InsertAbove(x, sorted, rest);
      }
    }
  }

  /** The head of a sorted list is not later than the result of inserting a
      later slot into its tail. */
  lemma InsertAbove(x: Slot, sorted: seq<Slot>, rest: seq<Slot>)
    requires sorted != [] && ByPosition(sorted) && sorted[0].position < x.position
    requires ByPosition(sorted[1..]) ==> ByPosition(rest)
    requires multiset(rest) == multiset(sorted[1..]) + multiset{x}
    ensures ByPosition([sorted[0]] + rest)
  {
    forall j | 0 <= j < |rest| ensures sorted[0].position <= rest[j].position {
      assert rest[j] in multiset(rest);
      if rest[j] != x {
        assert rest[j] in multiset(sorted[1..]);
        var k :| 0 <= k < |sorted[1..]| && sorted[1..][k] == rest[j];
        assert sorted[k + 1] == rest[j];
      }
    }
    var s := [sorted[0]] + rest;
    forall i, j | 0 <= i < j < |s| ensures s[i].position <= s[j].position {
      if i > 0 {
        assert s[i] == rest[i - 1] && s[j] == rest[j - 1];
      } else {
        assert s[j] == rest[j - 1];
      }
    }
  }

  /** The list finalisation: sort by position, then strip the tags (the
      `length` counter and `__position` live outside the snapshots). */
  function FinalList(slots: seq<Slot>): (r: seq<Record>)
    ensures |r| == |slots|
  {
    var sorted := SortByPosition(slots);
    seq(|sorted|, i requires 0 <= i < |sorted| => sorted[i].snapshot)
  }

  /** Sorting slots that are already in position order changes nothing. */
  lemma {:induction false} SortSorted(slots: seq<Slot>)
    requires InOrder(slots)
    ensures SortByPosition(slots) == slots
    decreases |slots|
  {
    if slots != [] {
      var tail := slots[1..];
      SortSorted(tail);
      if tail != [] {
        assert tail[0] in tail;
      }
      assert [slots[0]] + tail == slots;
    }
  }

  /** Finalising a valid list view lists the member snapshots in slot order. */
  lemma FinalListInSlotOrder(slots: seq<Slot>, length: nat)
    requires ListViewValid(slots, length)
    ensures FinalList(slots) == seq(|slots|, i requires 0 <= i < |slots| => slots[i].snapshot)
  {
    SortSorted(slots);
  }

  /** Dropping a member keeps the others in order. */
  lemma {:induction false} DropKeepsOrder(slots: seq<Slot>, id: Value)
    requires InOrder(slots)
    ensures InOrder(Drop(slots, id))
    decreases |slots|
  {
    if slots != [] {
      DropKeepsOrder(slots[1..], id);
      if slots[0].id != id {
        assert ([slots[0]] + Drop(slots[1..], id))[1..] == Drop(slots[1..], id);
      }
    }
  }

  /** Appending a slot later than, and different from, every other keeps the order. */
  lemma {:induction false} AppendKeepsOrder(slots: seq<Slot>, x: Slot)
    requires InOrder(slots) && forall s :: s in slots ==> s.position < x.position && s.id != x.id
    ensures InOrder(slots + [x])
    decreases |slots|
  {
    if slots != [] {
      AppendKeepsOrder(slots[1..], x);
      assert (slots + [x])[1..] == slots[1..] + [x];
      assert slots[0] in slots;
    }
  }

  /** Merging changes into one slot touches no id and no position. */
  lemma {:induction false} MergeKeepsOrder(slots: seq<Slot>, id: Value, changes: Record, position: int, other: Value)
    ensures Above(slots, position, other) ==> Above(MergeSlot(slots, id, changes), position, other)
    ensures InOrder(slots) ==> InOrder(MergeSlot(slots, id, changes))
    decreases |slots|
  {
    var r := MergeSlot(slots, id, changes);
    if Above(slots, position, other) {
      forall s | s in r ensures position < s.position && s.id != other {
        var k :| 0 <= k < |r| && r[k] == s;
        assert slots[k] in slots;
      }
    }
    if slots != [] && InOrder(slots) {
      MergeTail(slots, id, changes);
      MergeKeepsOrder(slots[1..], id, changes, slots[0].position, slots[0].id);
    }
  }

  lemma MergeTail(slots: seq<Slot>, id: Value, changes: Record)
    requires slots != []
    ensures var r := MergeSlot(slots, id, changes);
      r[1..] == MergeSlot(slots[1..], id, changes) && r[0].id == slots[0].id && r[0].position == slots[0].position
  {
    var r, t := MergeSlot(slots, id, changes), MergeSlot(slots[1..], id, changes);
    forall i | 0 <= i < |t| ensures r[1..][i] == t[i] {
      assert slots[1..][i] == slots[i + 1];
    }
  }

  /** Every transition keeps a valid view valid. */
  lemma ApplyKeepsValid(view: AfterView, change: Change, member: Record, changes: seq<Key>, scope: Scope)
    requires ViewValid(view)
    ensures ViewValid(Apply(view, change, member, changes, scope))
  {
    if view.ListView? {
      var id := IdOf(member);
      DropKeepsOrder(view.slots, id);
      if change == Added {
        AppendKeepsOrder(Drop(view.slots, id), Slot(id, MemberSnapshot(scope, member, scope.attributes), view.length));
      } else if change == Updated {
        MergeKeepsOrder(view.slots, id, MemberSnapshot(scope, member, changes), 0, Undefined);
        var r := MergeSlot(view.slots, id, MemberSnapshot(scope, member, changes));
        forall s | s in r ensures s.position < view.length {
          var k :| 0 <= k < |r| && r[k] == s;
          assert view.slots[k] in view.slots;
        }
      }
    }
  }

  /** Every baseline view is valid, whatever the member ids. */
  lemma {:induction false} BaselineValid(items: seq<Record>)
    ensures ViewValid(BaselineView(items))
    decreases |items|
  {
    if items != [] {
      var n := |items| - 1;
      BaselineValid(items[..n]);
      var prev := BaselineView(items[..n]);
      DropKeepsOrder(prev.slots, IdOf(items[n]));
      AppendKeepsOrder(Drop(prev.slots, IdOf(items[n])), Slot(IdOf(items[n]), items[n], prev.length));
    }
  }

  /** The slots of a freshly built list: member `i` of the baseline at position `i`. */
  function Positioned(items: seq<Record>): (slots: seq<Slot>)
    ensures |slots| == |items|
  {
    seq(|items|, i requires 0 <= i < |items| => Slot(IdOf(items[i]), items[i], i))
  }

  /** A baseline of distinct members gives each member its baseline index as
      position, in baseline order, and sets the counter to their number. */
  lemma {:induction false} BaselinePositions(items: seq<Record>)
    requires forall a, b :: 0 <= a < b < |items| ==> IdOf(items[a]) != IdOf(items[b])
    ensures BaselineView(items) == ListView(Positioned(items), |items|)
    decreases |items|
  {
    if items != [] {
      var n := |items| - 1;
      var prefix := items[..n];
      BaselinePositions(prefix);
      var prev := Positioned(prefix);
      var id := IdOf(items[n]);
      var last := Slot(id, items[n], n);
      assert Drop(prev, id) == prev by {
        forall s | s in prev ensures s.id != id {
          var k :| 0 <= k < n && prev[k] == s;
        }
        DropNone(prev, id);
      }
      calc {
        BaselineView(items);
        ListView(PutSlot(BaselineView(prefix).slots, id, items[n], n), n + 1);
        ListView(Drop(prev, id) + [last], n + 1);
        ListView(prev + [last], n + 1);
        { PositionedSnoc(items); }
        ListView(Positioned(items), |items|);
      }
    }
  }

  lemma PositionedSnoc(items: seq<Record>)
    requires items != []
    ensures var n := |items| - 1;
      Positioned(items) == Positioned(items[..n]) + [Slot(IdOf(items[n]), items[n], n)]
  {
    var n := |items| - 1;
    var prev := Positioned(items[..n]);
    forall i | 0 <= i < |items| ensures Positioned(items)[i] == (prev + [Slot(IdOf(items[n]), items[n], n)])[i] {
      if i < n { assert Positioned(items)[i] == prev[i]; }
    }
  }

  lemma {:induction false} DropNone(slots: seq<Slot>, id: Value)
    requires forall s :: s in slots ==> s.id != id
    ensures Drop(slots, id) == slots
    decreases |slots|
  {
    if slots != [] {
      assert slots[0] in slots;
      DropNone(slots[1..], id);
      assert [slots[0]] + slots[1..] == slots;
    }
  }

  /** An added member goes after every member still in the list, with the
      next position; the counter goes up by one. */
  lemma AddedGoesLast(slots: seq<Slot>, length: nat, member: Record, changes: seq<Key>, scope: Scope)
    requires ListViewValid(slots, length)
    ensures var v := Apply(ListView(slots, length), Added, member, changes, scope);
      var snap := MemberSnapshot(scope, member, scope.attributes);
      && v.length == length + 1
      && v.slots == Drop(slots, IdOf(member)) + [Slot(IdOf(member), snap, length)]
      && FinalList(v.slots) == FinalList(Drop(slots, IdOf(member))) + [snap]
  {
    var id := IdOf(member);
    ApplyKeepsValid(ListView(slots, length), Added, member, changes, scope);
    DropKeepsOrder(slots, id);
    var v := Apply(ListView(slots, length), Added, member, changes, scope);
    FinalListInSlotOrder(v.slots, v.length);
    FinalListInSlotOrder(Drop(slots, id), length);
  }

  /** A removed member disappears; the counter and the others' positions and
      order stay as they were. */
  lemma RemovedKeepsOrder(slots: seq<Slot>, length: nat, member: Record, changes: seq<Key>, scope: Scope)
    requires ListViewValid(slots, length)
    ensures var v := Apply(ListView(slots, length), Removed, member, changes, scope);
      && v.length == length
      && (forall s :: s in v.slots <==> s in slots && s.id != IdOf(member))
      && FinalList(v.slots) == seq(|v.slots|, i requires 0 <= i < |v.slots| => v.slots[i].snapshot)
  {
    DropKeepsOrder(slots, IdOf(member));
    SortSorted(Drop(slots, IdOf(member)));
  }

  /** An update merges the changed attributes into the member's slot only,
      keeping every position; the counter is unchanged. */
  lemma UpdatedMergesChanges(slots: seq<Slot>, length: nat, member: Record, changes: seq<Key>, scope: Scope, i: nat)
    requires ListViewValid(slots, length) && i < |slots|
    ensures var v := Apply(ListView(slots, length), Updated, member, changes, scope);
      && v.length == length && |v.slots| == |slots|
      && v.slots[i].id == slots[i].id && v.slots[i].position == slots[i].position
      && v.slots[i].snapshot ==
           (if slots[i].id == IdOf(member) then Extend(slots[i].snapshot, MemberSnapshot(scope, member, changes))
            else slots[i].snapshot)
  {
  }

  /** On a single association, removal empties the value, an addition
      replaces it and an update merges the changed attributes into it. */
  lemma SingleTransitions(current: Snapshot, member: Record, changes: seq<Key>, scope: Scope)
    ensures Apply(SingleView(current), Removed, member, changes, scope) == SingleView(Absent)
    ensures Apply(SingleView(current), Added, member, changes, scope) ==
      SingleView(Single(MemberSnapshot(scope, member, scope.attributes)))
    ensures current.Single? ==> (Apply(SingleView(current), Updated, member, changes, scope) ==
      SingleView(Single(Extend(current.r, MemberSnapshot(scope, member, changes)))))
    ensures !current.Single? ==> Apply(SingleView(current), Updated, member, changes, scope) == SingleView(current)
  {
  }

  lemma DropHead(slots: seq<Slot>)
    requires slots != []
    requires forall i :: 0 < i < |slots| ==> slots[i].id != slots[0].id
    ensures Drop(slots, slots[0].id) == slots[1..]
  {
    forall s | s in slots[1..] ensures s.id != slots[0].id {
      var j :| 0 <= j < |slots[1..]| && slots[1..][j] == s;
      assert s == slots[j + 1];
    }
    DropNone(slots[1..], slots[0].id);
  }

  /** Dropping the one slot that carries a member's id removes exactly that slot. */
  lemma {:induction false} DropOne(slots: seq<Slot>, k: nat)
    requires k < |slots|
    requires forall i :: 0 <= i < |slots| && i != k ==> slots[i].id != slots[k].id
    ensures Drop(slots, slots[k].id) == slots[..k] + slots[k + 1..]
    decreases |slots|
  {
    if k == 0 {
      DropHead(slots);
    } else {
      var tail := slots[1..];
      assert tail[k - 1] == slots[k];
      forall i | 0 <= i < |tail| && i != k - 1 ensures tail[i].id != tail[k - 1].id {
        assert tail[i] == slots[i + 1];
      }
      DropOne(tail, k - 1);
      SplitAround(slots, k);
    }
  }

  /** Cutting slot `k > 0` out of a list is cutting it out of the tail. */
  lemma SplitAround(slots: seq<Slot>, k: nat)
    requires 0 < k < |slots|
    ensures slots[..k] + slots[k + 1..] == [slots[0]] + (slots[1..][..k - 1] + slots[1..][k..])
  {
    assert slots[..k] == [slots[0]] + slots[1..][..k - 1];
    assert slots[k + 1..] == slots[1..][k..];
  }

  /** Removing a baseline member from a freshly built list leaves the other
      baseline members in their baseline order (tracking.spec.js, a task
      moved away from its user). */
  lemma LeaveKeepsBaselineOrder(items: seq<Record>, k: nat, member: Record, changes: seq<Key>, scope: Scope)
    requires forall a, b :: 0 <= a < b < |items| ==> IdOf(items[a]) != IdOf(items[b])
    requires k < |items| && IdOf(member) == IdOf(items[k])
    ensures var v := Apply(BaselineView(items), Removed, member, changes, scope);
      v.ListView? && FinalList(v.slots) == items[..k] + items[k + 1..]
  {
    BaselinePositions(items);
    BaselineValid(items);
    LeavePositioned(items, k, member, changes, scope);
  }

  lemma LeavePositioned(items: seq<Record>, k: nat, member: Record, changes: seq<Key>, scope: Scope)
    requires forall a, b :: 0 <= a < b < |items| ==> IdOf(items[a]) != IdOf(items[b])
    requires k < |items| && IdOf(member) == IdOf(items[k])
    requires ListViewValid(Positioned(items), |items|)
    ensures var v := Apply(ListView(Positioned(items), |items|), Removed, member, changes, scope);
      v.ListView? && FinalList(v.slots) == items[..k] + items[k + 1..]
  {
    var slots := Positioned(items);
    forall i | 0 <= i < |slots| && i != k ensures slots[i].id != slots[k].id {
      if i < k { assert IdOf(items[i]) != IdOf(items[k]); } else { assert IdOf(items[k]) != IdOf(items[i]); }
    }
    DropOne(slots, k);
    RemovedKeepsOrder(slots, |items|, member, changes, scope);
    SnapshotsWithout(items, k);
  }

  /** The snapshots of the baseline slots other than the `k`-th are the
      baseline members other than the `k`-th. */
  lemma SnapshotsWithout(items: seq<Record>, k: nat)
    requires k < |items|
    ensures var slots := Positioned(items);
      var rest := slots[..k] + slots[k + 1..];
      seq(|rest|, i requires 0 <= i < |rest| => rest[i].snapshot) == items[..k] + items[k + 1..]
  {
    var slots := Positioned(items);
    var rest := slots[..k] + slots[k + 1..];
    var wanted := items[..k] + items[k + 1..];
    var snaps := seq(|rest|, i requires 0 <= i < |rest| => rest[i].snapshot);
    forall i | 0 <= i < |rest| ensures snaps[i] == wanted[i] {
      if i < k {
        assert rest[i] == slots[i] && wanted[i] == items[i];
      } else {
        assert rest[i] == slots[i + 1] && wanted[i] == items[i + 1];
      }
    }
  }

  /** Adding a new member to a freshly built list puts it after every
      baseline member, which keep their order (tracking.spec.js, a task
      moved to another user). */
  lemma JoinFollowsBaseline(items: seq<Record>, member: Record, changes: seq<Key>, scope: Scope)
    requires forall a, b :: 0 <= a < b < |items| ==> IdOf(items[a]) != IdOf(items[b])
    requires forall i :: 0 <= i < |items| ==> IdOf(items[i]) != IdOf(member)
    ensures var v := Apply(BaselineView(items), Added, member, changes, scope);
      v.ListView? && FinalList(v.slots) == items + [MemberSnapshot(scope, member, scope.attributes)]
  {
    BaselinePositions(items);
    BaselineValid(items);
    JoinPositioned(items, member, changes, scope);
  }

  lemma JoinPositioned(items: seq<Record>, member: Record, changes: seq<Key>, scope: Scope)
    requires forall i :: 0 <= i < |items| ==> IdOf(items[i]) != IdOf(member)
    requires ListViewValid(Positioned(items), |items|)
    ensures var v := Apply(ListView(Positioned(items), |items|), Added, member, changes, scope);
      v.ListView? && FinalList(v.slots) == items + [MemberSnapshot(scope, member, scope.attributes)]
  {
    var slots := Positioned(items);
    AddedGoesLast(slots, |items|, member, changes, scope);
    PositionedAvoids(items, IdOf(member));
    PositionedFinal(items);
  }

  /** A freshly built list holds no slot for an id none of its members has. */
  lemma PositionedAvoids(items: seq<Record>, id: Value)
    requires forall i :: 0 <= i < |items| ==> IdOf(items[i]) != id
    ensures Drop(Positioned(items), id) == Positioned(items)
  {
    var slots := Positioned(items);
    forall s | s in slots ensures s.id != id {
      var j :| 0 <= j < |slots| && slots[j] == s;
    }
    DropNone(slots, id);
  }

  /** Finalising a freshly built list gives back its members in order. */
  lemma PositionedFinal(items: seq<Record>)
    requires ListViewValid(Positioned(items), |items|)
    ensures FinalList(Positioned(items)) == items
  {
    var slots := Positioned(items);
    FinalListInSlotOrder(slots, |items|);
    var snaps := seq(|slots|, i requires 0 <= i < |slots| => slots[i].snapshot);
    assert forall i :: 0 <= i < |items| ==> snaps[i] == items[i];
  }

  /** The loop of `track` over the baseline members of a list association. */
  method BuildListView(items: seq<Record>) returns (view: AfterView)
    ensures view == BaselineView(items)
  {
    var slots: seq<Slot> := [];
    var length: nat := 0;
    var i := 0;
    while i < |items|
      invariant 0 <= i <= |items|
      invariant ListView(slots, length) == BaselineView(items[..i])
    {
      assert items[..i + 1][..i] == items[..i];
      slots := PutSlot(slots, IdOf(items[i]), items[i], length);
      length := length + 1;
      i := i + 1;
    }
    assert items[..i] == items;
    view := ListView(slots, length);
  }

  /** The cache invariant: `order` lists every cached owner exactly once,
      and every after-view is valid. */
  predicate CacheValid(entries: map<Value, Entry>, order: seq<Value>) {
    && NoDups(order)
    && entries.Keys == (set id | id in order)
    && (forall id :: id in entries ==> ViewValid(entries[id].after))
  }

  /** Storing a valid entry for an owner, enrolled in the order on its first
      touch, keeps the cache invariant. */
  lemma StoreKeepsValid(entries: map<Value, Entry>, order: seq<Value>, ownerId: Value, e: Entry)
    requires CacheValid(entries, order) && ViewValid(e.after)
    ensures CacheValid(entries[ownerId := e], if ownerId in order then order else order + [ownerId])
  {
    var order' := if ownerId in order then order else order + [ownerId];
    assert (set id | id in order') == (set id | id in order) + {ownerId};
  }

  /** A contribution keeps the after-view valid. */
  lemma ContributeKeepsValid(base: Entry, instance: Record, tempId: Value, changes: seq<Key>, change: Change, scope: Scope)
    requires ViewValid(base.after)
    ensures ViewValid(Contribute(base, instance, tempId, changes, change, scope).after)
  {
    ApplyKeepsValid(base.after, change, MemberRecord(instance, tempId), changes, scope);
  }

  /** The first touch of `track`: `id`, `type`, `list` and `before[as]` are
      set, and `after[as]` is derived from the baseline. */
  method FreshEntry(ownerId: Value, scope: Scope, baseline: Snapshot) returns (e: Entry)
    ensures e == Entry(ownerId, scope.name, scope.list, baseline, InitialView(scope, baseline))
    ensures ViewValid(e.after)
  {
    var view: AfterView;
    if scope.list {
      view := BuildListView(Members(baseline));
    } else {
      view := SingleView(baseline);
    }
    BaselineValid(Members(baseline));
    e := Entry(ownerId, scope.name, scope.list, baseline, view);
  }

  /** The per-operation cache `{ [ownerId]: entry }`, with its owners in the
      order they were first touched. */
  class Cache {
    var entries: map<Value, Entry>
    var order: seq<Value>

    ghost predicate Valid()
      reads this
    {
      CacheValid(entries, order)
    }

    constructor ()
      ensures Valid() && entries == map[] && order == []
    {
      entries := map[];
      order := [];
    }

    /** `track(id, instance, changes, state, scope, cache[id])`: the first
        touch of an owner fixes its baseline (`scope.get(id)`, given here as
        `baseline`) and derives the after-view; every touch then applies
        the member's transition to the after-view. */
    method Track(ownerId: Value, instance: Record, tempId: Value, changes: seq<Key>,
                 change: Change, scope: Scope, baseline: Snapshot)
      requires Valid()
      modifies this
      ensures Valid()
      ensures entries == old(entries)[ownerId :=
        TrackEntry(EntryOf(old(entries), ownerId), ownerId, instance, tempId, changes, change, scope, baseline)]
      ensures order == if ownerId in old(order) then old(order) else old(order) + [ownerId]
    {
      ghost var expected := TrackEntry(EntryOf(entries, ownerId), ownerId, instance, tempId, changes, change, scope, baseline);
      var e: Entry;
      if ownerId in entries && Truthy(entries[ownerId].id) {
        e := entries[ownerId];
      } else {
        e := FreshEntry(ownerId, scope, baseline);
      }
      assert e == BaseEntry(EntryOf(entries, ownerId), ownerId, scope, baseline);
      ContributeKeepsValid(e, instance, tempId, changes, change, scope);
      e := Contribute(e, instance, tempId, changes, change, scope);
      assert e == expected;
      StoreKeepsValid(entries, order, ownerId, e);
      entries := entries[ownerId := e];
      if ownerId !in order {
        order := order + [ownerId];
      }
    }
  }
}
