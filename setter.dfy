/** The membership diff of `wrappedBeforeNonThroughSetter`: from the owner's
    current members and the target rows of an `add…`, `set…` or `remove…`
    call, the instances whose foreign key the setter changes, each with the
    new foreign key applied the way the hook applies it. */
module SetterDiff {
  import opened JsValues
  import opened Correlation
  import opened ChangeDetector
  import opened TrackingCache
  import opened AssociationHooks

  /** `instance.setDataValue(key, value)`: the value is stored, and the key
      is marked changed when the value differs from the loaded one. */
  function SetDataValue(self: Instance, k: Key, v: Value): Instance {
    Instance(Put(self.values, k, v), self.previous,
             if v != Get(self.previous, k) then AddKey(self.changed, k) else self.changed)
  }

  /** The value is stored and nothing else changes; the key is marked
      changed exactly when the value differs from the loaded one, and a key
      marked before stays marked. */
  lemma SetDataValueEffect(self: Instance, k: Key, v: Value)
    ensures var r := SetDataValue(self, k, v);
      && (forall j :: Get(r.values, j) == if j == k then v else Get(self.values, j))
      && r.previous == self.previous
      && (forall j :: j in r.changed <==> j in self.changed || (j == k && v != Get(self.previous, k)))
  {
  }

  lemma {:induction false} PutTwice(r: Record, k: Key, v: Value)
    ensures Put(Put(r, k, v), k, v) == Put(r, k, v)
  {
    if r != [] && r[0].key != k {
      PutTwice(r[1..], k, v);
    }
  }

  /** Setting the same value twice is setting it once. */
  lemma SetDataValueTwice(self: Instance, k: Key, v: Value)
    ensures SetDataValue(SetDataValue(self, k, v), k, v) == SetDataValue(self, k, v)
  {
    PutTwice(self.values, k, v);
  }

  /** Some row of `rows` has the given id. */
  predicate HasId(rows: seq<Instance>, id: Value)
    decreases |rows|
  {
    rows != [] && (HasId(rows[..|rows| - 1], id) || IdOf(rows[|rows| - 1].values) == id)
  }

  lemma {:induction false} HasIdMeans(rows: seq<Instance>, id: Value)
    ensures HasId(rows, id) <==> exists j :: 0 <= j < |rows| && IdOf(rows[j].values) == id
    decreases |rows|
  {
    if rows != [] {
      var n := |rows| - 1;
      HasIdMeans(rows[..n], id);
      assert forall j :: 0 <= j < n ==> rows[..n][j] == rows[j];
    }
  }

  /** What the first loop does with one current member `b`: under `remove…`
      a targeted member loses its foreign key, and every member is pushed;
      otherwise a targeted member stays and is not pushed, and an untargeted
      one is pushed, losing its foreign key under `set…` only. */
  function MemberOutcome(b: Instance, targets: seq<Instance>, fk: Key, isAdd: bool, isRemove: bool): seq<Instance> {
    var targeted := HasId(targets, IdOf(b.values));
    if isRemove then [if targeted then SetDataValue(b, fk, Null) else b]
    else if targeted then []
    else if isAdd then [b]
    else [SetDataValue(b, fk, Null)]
  }

  /** The instances the first loop pushes, members in order. */
  function MemberPart(members: seq<Instance>, targets: seq<Instance>, fk: Key, isAdd: bool, isRemove: bool): seq<Instance>
    decreases |members|
  {
    if members == [] then []
    else
      var n := |members| - 1;
      MemberPart(members[..n], targets, fk, isAdd, isRemove) + MemberOutcome(members[n], targets, fk, isAdd, isRemove)
  }

  /** The targets no member matched, in order. */
  function Unmatched(members: seq<Instance>, targets: seq<Instance>): seq<Instance>
    decreases |targets|
  {
    if targets == [] then []
    else
      var n := |targets| - 1;
      Unmatched(members, targets[..n]) + (if HasId(members, IdOf(targets[n].values)) then [] else [targets[n]])
  }

  /** `setDataValue(fk, v)` on each of the given rows. */
  function PointAll(rows: seq<Instance>, fk: Key, v: Value): (r: seq<Instance>)
    ensures |r| == |rows|
  {
    seq(|rows|, i requires 0 <= i < |rows| => SetDataValue(rows[i], fk, v))
  }

  /** The instances the second loop pushes: every target no member matched,
      its foreign key pointing at the owner. */
  function TargetPart(members: seq<Instance>, targets: seq<Instance>, fk: Key, selfId: Value): seq<Instance> {
    PointAll(Unmatched(members, targets), fk, selfId)
  }

  /** `instances` as the hook builds them. */
  function SetterInstances(members: seq<Instance>, targets: seq<Instance>, fk: Key, selfId: Value, trigger: string): seq<Instance> {
    MemberPart(members, targets, fk, IsAddSetter(trigger), IsRemoveSetter(trigger)) + TargetPart(members, targets, fk, selfId)
  }

  /** The inner `_.each(after, …)` for one member `b`: compares `b` with
      every target, applying the removal and setting `found` and the
      targets' `found` flags. */
  method MatchTargets(b0: Instance, targets: seq<Instance>, flags: seq<bool>, fk: Key, isRemove: bool)
      returns (b: Instance, found: bool, flags': seq<bool>)
    requires |flags| == |targets| && fk != "id"
    ensures found <==> !isRemove && HasId(targets, IdOf(b0.values))
    ensures b == if isRemove && HasId(targets, IdOf(b0.values)) then SetDataValue(b0, fk, Null) else b0
    ensures |flags'| == |targets|
    ensures forall j :: 0 <= j < |targets| ==> flags'[j] == (flags[j] || IdOf(targets[j].values) == IdOf(b0.values))
  {
    b, found, flags' := b0, false, flags;
    var j := 0;
    while j < |targets|
      invariant 0 <= j <= |targets| && |flags'| == |targets|
      invariant IdOf(b.values) == IdOf(b0.values)
      invariant found <==> !isRemove && HasId(targets[..j], IdOf(b0.values))
      invariant b == if isRemove && HasId(targets[..j], IdOf(b0.values)) then SetDataValue(b0, fk, Null) else b0
      invariant forall m :: 0 <= m < |targets| ==>
        flags'[m] == (flags[m] || (m < j && IdOf(targets[m].values) == IdOf(b0.values)))
    {
      assert targets[..j + 1][..j] == targets[..j];
      if IdOf(b.values) == IdOf(targets[j].values) {
        if isRemove {
          SetDataValueTwice(b0, fk, Null);
          SetDataValueEffect(b, fk, Null);
          b := SetDataValue(b, fk, Null);
        } else {
          found := true;
        }
        flags' := flags'[j := true];
      }
      j := j + 1;
    }
    assert targets[..j] == targets;
  }

  /** The first loop, `_.each(before, …)`: the members pushed, and for
      each target whether some member matched it (`a.found`). */
  method MemberLoop(members: seq<Instance>, targets: seq<Instance>, fk: Key, isAdd: bool, isRemove: bool)
      returns (instances: seq<Instance>, flags: seq<bool>)
    requires fk != "id"
    ensures instances == MemberPart(members, targets, fk, isAdd, isRemove)
    ensures |flags| == |targets|
    ensures forall j :: 0 <= j < |targets| ==> flags[j] == HasId(members, IdOf(targets[j].values))
  {
    flags := seq(|targets|, _ => false);
    instances := [];
    var i := 0;
    while i < |members|
      invariant 0 <= i <= |members| && |flags| == |targets|
      invariant instances == MemberPart(members[..i], targets, fk, isAdd, isRemove)
      invariant forall j :: 0 <= j < |targets| ==> flags[j] == HasId(members[..i], IdOf(targets[j].values))
    {
      MemberPartNext(members, targets, fk, isAdd, isRemove, i);
      forall x { HasIdNext(members, i, x); }
      var b, found;
      b, found, flags := MatchTargets(members[i], targets, flags, fk, isRemove);
      if !found {
        if !isRemove && !isAdd {
          b := SetDataValue(b, fk, Null);
        }
        instances := instances + [b];
      }
      i := i + 1;
    }
    assert members[..i] == members;
  }

  lemma MemberPartNext(members: seq<Instance>, targets: seq<Instance>, fk: Key, isAdd: bool, isRemove: bool, i: nat)
    requires i < |members|
    ensures MemberPart(members[..i + 1], targets, fk, isAdd, isRemove) ==
      MemberPart(members[..i], targets, fk, isAdd, isRemove) + MemberOutcome(members[i], targets, fk, isAdd, isRemove)
  {
    assert members[..i + 1][..i] == members[..i];
  }

  lemma HasIdNext(rows: seq<Instance>, i: nat, x: Value)
    requires i < |rows|
    ensures HasId(rows[..i + 1], x) <==> HasId(rows[..i], x) || IdOf(rows[i].values) == x
  {
    var next := rows[..i + 1];
    assert next[..i] == rows[..i] && next[i] == rows[i];
  }

  lemma UnmatchedNext(members: seq<Instance>, targets: seq<Instance>, j: nat)
    requires j < |targets|
    ensures Unmatched(members, targets[..j + 1]) == Unmatched(members, targets[..j]) +
      (if HasId(members, IdOf(targets[j].values)) then [] else [targets[j]])
  {
    assert targets[..j + 1][..j] == targets[..j];
  }

  lemma PointAllSnoc(rows: seq<Instance>, row: Instance, fk: Key, v: Value)
    ensures PointAll(rows + [row], fk, v) == PointAll(rows, fk, v) + [SetDataValue(row, fk, v)]
  {
  }

  /** The second loop, `_.each(after, …)`: every target no member matched
      gets the owner's id as its foreign key and is pushed. */
  method TargetLoop(members: seq<Instance>, targets: seq<Instance>, flags: seq<bool>, fk: Key, selfId: Value)
      returns (pushed: seq<Instance>)
    requires |flags| == |targets|
    requires forall j :: 0 <= j < |targets| ==> flags[j] == HasId(members, IdOf(targets[j].values))
    ensures pushed == TargetPart(members, targets, fk, selfId)
  {
    pushed := [];
    var j := 0;
    while j < |targets|
      invariant 0 <= j <= |targets|
      invariant pushed == TargetPart(members, targets[..j], fk, selfId)
    {
      UnmatchedNext(members, targets, j);
      if !flags[j] {
        PointAllSnoc(Unmatched(members, targets[..j]), targets[j], fk, selfId);
        pushed := pushed + [SetDataValue(targets[j], fk, selfId)];
      }
      j := j + 1;
    }
    assert targets[..j] == targets;
  }

  /** The membership diff of `wrappedBeforeNonThroughSetter`: `members` are
      the owner's current members (`scope.get`), `targets` the rows the call
      names (`target.findAll`), `selfId` the owner's id. The foreign key is
      a column of its own, never the primary key. */
  method MembershipDiff(members: seq<Instance>, targets: seq<Instance>, fk: Key, selfId: Value, trigger: string)
      returns (instances: seq<Instance>)
    requires fk != "id"
    ensures instances == SetterInstances(members, targets, fk, selfId, trigger)
  {
    var flags;
    instances, flags := MemberLoop(members, targets, fk, IsAddSetter(trigger), IsRemoveSetter(trigger));
    var pushed := TargetLoop(members, targets, flags, fk, selfId);
    instances := instances + pushed;
  }

  /** Every instance the first loop pushes is the outcome of some member. */
  lemma {:induction false} MemberPartSource(members: seq<Instance>, targets: seq<Instance>, fk: Key,
                                            isAdd: bool, isRemove: bool, x: Instance) returns (m: nat)
    requires x in MemberPart(members, targets, fk, isAdd, isRemove)
    ensures m < |members| && x in MemberOutcome(members[m], targets, fk, isAdd, isRemove)
    decreases |members|
  {
    var n := |members| - 1;
    var prefix := MemberPart(members[..n], targets, fk, isAdd, isRemove);
    assert MemberPart(members, targets, fk, isAdd, isRemove) ==
      prefix + MemberOutcome(members[n], targets, fk, isAdd, isRemove);
    if x in prefix {
      m := MemberPartSource(members[..n], targets, fk, isAdd, isRemove, x);
      assert members[..n][m] == members[m];
    } else {
      m := n;
    }
  }

  /** Every target no member matches is among the unmatched ones. */
  lemma {:induction false} UnmatchedHas(members: seq<Instance>, targets: seq<Instance>, j: nat)
    requires j < |targets| && !HasId(members, IdOf(targets[j].values))
    ensures targets[j] in Unmatched(members, targets)
    decreases |targets|
  {
    var n := |targets| - 1;
    if j < n {
      assert targets[..n][j] == targets[j];
      UnmatchedHas(members, targets[..n], j);
    }
  }

  /** Every target no member matches is pushed by the second loop,
      pointing at the owner. */
  lemma TargetPartHas(members: seq<Instance>, targets: seq<Instance>, fk: Key, selfId: Value, j: nat)
    requires j < |targets| && !HasId(members, IdOf(targets[j].values))
    ensures SetDataValue(targets[j], fk, selfId) in TargetPart(members, targets, fk, selfId)
  {
    var rows := Unmatched(members, targets);
    UnmatchedHas(members, targets, j);
    var i :| 0 <= i < |rows| && rows[i] == targets[j];
    assert PointAll(rows, fk, selfId)[i] == SetDataValue(targets[j], fk, selfId);
  }

  /** An instance as the database returned it: nothing set since loading. */
  predicate Loaded(self: Instance) {
    self.values == self.previous && self.changed == []
  }

  /** The contributions of an untouched loaded row: none. */
  lemma StayContribution(b: Instance, fk: Key)
    requires Loaded(b) && Truthy(IdOf(b.values))
    ensures MemberContributions(b, fk, false) == []
  {
  }

  /** A loaded row whose foreign key is cleared leaves its owner, if it had one. */
  lemma LeaveContribution(b: Instance, fk: Key)
    requires Loaded(b) && Truthy(IdOf(b.values)) && fk != "id"
    ensures var owner := Get(b.values, fk);
      MemberContributions(SetDataValue(b, fk, Null), fk, false) ==
        if Truthy(owner) then [Contribution(owner, Removed)] else []
  {
    var r := SetDataValue(b, fk, Null);
    SetDataValueEffect(b, fk, Null);
    assert IdOf(r.values) == IdOf(b.values);
    if Get(b.values, fk) != Null {
      assert fk in r.changed;
    }
  }

  /** A loaded row whose foreign key is pointed at another owner leaves its
      old owner, if it had one, and joins the new one. */
  lemma JoinContribution(a: Instance, fk: Key, selfId: Value)
    requires Loaded(a) && Truthy(IdOf(a.values)) && fk != "id"
    requires Truthy(selfId) && Get(a.values, fk) != selfId
    ensures var owner := Get(a.values, fk);
      MemberContributions(SetDataValue(a, fk, selfId), fk, false) ==
        (if Truthy(owner) then [Contribution(owner, Removed)] else []) + [Contribution(selfId, Added)]
  {
    var r := SetDataValue(a, fk, selfId);
    SetDataValueEffect(a, fk, selfId);
    assert IdOf(r.values) == IdOf(a.values);
    assert fk in r.changed;
  }

  /** How each current member of the owner is classified: `set…` removes
      every member it does not name, `add…` leaves the members alone,
      `remove…` removes exactly the members it names; a member a `set…` or
      `add…` names is not touched at all. */
  lemma MemberClassification(b: Instance, targets: seq<Instance>, fk: Key, trigger: string)
    requires Loaded(b) && Truthy(IdOf(b.values)) && fk != "id"
    ensures var out := MemberOutcome(b, targets, fk, IsAddSetter(trigger), IsRemoveSetter(trigger));
      var named := HasId(targets, IdOf(b.values));
      var owner := Get(b.values, fk);
      var leave := if Truthy(owner) then [Contribution(owner, Removed)] else [];
      && (IsRemoveSetter(trigger) ==>
            |out| == 1 && MemberContributions(out[0], fk, false) == if named then leave else [])
      && (!IsRemoveSetter(trigger) && named ==> out == [])
      && (IsAddSetter(trigger) && !named ==> out == [b] && MemberContributions(b, fk, false) == [])
      && (!IsAddSetter(trigger) && !IsRemoveSetter(trigger) && !named ==>
            |out| == 1 && MemberContributions(out[0], fk, false) == leave)
  {
    SetterKinds(trigger);
    LeaveContribution(b, fk);
  }

  /** As written, `remove…` with a target that is not a member of the owner
      points that target's foreign key at the owner and pushes it, so the
      audit reports the target as added to the owner it was removed from. */
  lemma RemoveReportsNonMemberAsAdded(members: seq<Instance>, targets: seq<Instance>, fk: Key, selfId: Value,
                                      trigger: string, j: nat)
    requires IsRemoveSetter(trigger) && j < |targets| && !HasId(members, IdOf(targets[j].values))
    requires Loaded(targets[j]) && Truthy(IdOf(targets[j].values)) && fk != "id"
    requires Truthy(selfId) && Get(targets[j].values, fk) != selfId
    ensures var x := SetDataValue(targets[j], fk, selfId);
      && x in SetterInstances(members, targets, fk, selfId, trigger)
      && Contribution(selfId, Added) in MemberContributions(x, fk, false)
  {
    TargetPartHas(members, targets, fk, selfId, j);
    JoinContribution(targets[j], fk, selfId);
  }

  /** The same, on rows: removing row 5, which belongs to owner 7, from
      owner 1 reports row 5 as leaving owner 7 and joining owner 1. */
  lemma RemoveNonMemberExample()
    ensures var row := Instance([Field("id", Num(5)), Field("ownerId", Num(7))],
                                [Field("id", Num(5)), Field("ownerId", Num(7))], []);
      var x := SetDataValue(row, "ownerId", Num(1));
      && x in SetterInstances([], [row], "ownerId", Num(1), "removeItems")
      && MemberContributions(x, "ownerId", false) == [Contribution(Num(7), Removed), Contribution(Num(1), Added)]
  {
    var row := Instance([Field("id", Num(5)), Field("ownerId", Num(7))],
                        [Field("id", Num(5)), Field("ownerId", Num(7))], []);
    assert IdOf(row.values) == Num(5);
    assert Get(row.values, "ownerId") == Num(7);
    assert "removeItems"[..6] == "remove";
    RemoveReportsNonMemberAsAdded([], [row], "ownerId", Num(1), "removeItems", 0);
    JoinContribution(row, "ownerId", Num(1));
  }

  /** The instances the hook evidently means to build: a `remove…` call
      only ever detaches current members, so its unmatched targets are not
      pushed. */
  function IntendedInstances(members: seq<Instance>, targets: seq<Instance>, fk: Key, selfId: Value, trigger: string): seq<Instance> {
    MemberPart(members, targets, fk, IsAddSetter(trigger), IsRemoveSetter(trigger)) +
      (if IsRemoveSetter(trigger) then [] else TargetPart(members, targets, fk, selfId))
  }

  /** Under the intended diff a `remove…` call reports no addition to any
      owner: every instance it pushes is a current member, detached or untouched. */
  lemma IntendedRemoveAddsNothing(members: seq<Instance>, targets: seq<Instance>, fk: Key, selfId: Value,
                                  trigger: string, x: Instance, o: Value)
    requires IsRemoveSetter(trigger) && fk != "id"
    requires forall m :: 0 <= m < |members| ==> Loaded(members[m]) && Truthy(IdOf(members[m].values))
    requires x in IntendedInstances(members, targets, fk, selfId, trigger)
    ensures exists m :: 0 <= m < |members| && (x == members[m] || x == SetDataValue(members[m], fk, Null))
    ensures Contribution(o, Added) !in MemberContributions(x, fk, false)
  {
    SetterKinds(trigger);
    var m := MemberPartSource(members, targets, fk, false, true, x);
    StayContribution(members[m], fk);
    LeaveContribution(members[m], fk);
  }

  /** A target matched by a member is never pushed. */
  lemma {:induction false} UnmatchedOfMembers(members: seq<Instance>, targets: seq<Instance>)
    requires forall j :: 0 <= j < |targets| ==> HasId(members, IdOf(targets[j].values))
    ensures Unmatched(members, targets) == []
    decreases |targets|
  {
    if targets != [] {
      UnmatchedOfMembers(members, targets[..|targets| - 1]);
    }
  }

  /** The intended diff differs from the written one only for a `remove…`
      call naming a row that is not a member. */
  lemma IntendedAgrees(members: seq<Instance>, targets: seq<Instance>, fk: Key, selfId: Value, trigger: string)
    requires !IsRemoveSetter(trigger) || forall j :: 0 <= j < |targets| ==> HasId(members, IdOf(targets[j].values))
    ensures IntendedInstances(members, targets, fk, selfId, trigger) == SetterInstances(members, targets, fk, selfId, trigger)
  {
    if IsRemoveSetter(trigger) {
      UnmatchedOfMembers(members, targets);
    }
  }
}
