# Audit-record assembly of the sequelize tracking enhancer

This project models the core of `enhancers/tracking.js`, the part of the
tracking enhancer that turns entity and association mutations into audit
records. It has two parts.

The **direct hooks** (`_wrappedBeforeUpdate` / `_wrappedAfterUpdate`) work on one entity:

- The before-phase captures the previous and the new values of the changed attributes.
- It stores them in the operation context under a scope key.
- The after-phase turns them into one `UPDATE` or `DELETE` record.
- That record holds only the visible attributes whose redacted values differ (`differentKeys`, `pick`, `safe`, `getVisibleAttributes`).

The **association hooks** keep a tracking cache with one entry per owner id. The before-phase is `_wrappedBeforeUpdateAssociation` and `track`. For each member change:

- The member is removed from, added to or updated in its owners' association.
- The owner's `before` baseline is fixed the first time the owner is touched.
- The "after" view of a list is an id-keyed map with `__position` tags and a `length` counter.

The after-phase is `_wrappedAfterUpdateAssociation` plus the finalisation loops of the bulk and setter hooks:

- It patches the real id of a created member into the entries.
- It sorts each list by position and strips the tags.
- It emits one record per owner.

The membership diff of the non-through association setters (`add…`, `set…`, `remove…`) is modelled as well. The scope key correlates the two phases (`getScopeKey` / `setScopeKey`). Triggers are classified by `isSetter`, `isAddSetter` and `isRemoveSetter`.

Modules, in dependency order:

| file | module | what it holds |
|---|---|---|
| `values.dfy` | `JsValues` | JavaScript values; objects as ordered property lists; `obj[k]`, assignment, lodash `_.pick` and `_.extend` |
| `redaction.dfy` | `Redaction` | `safe`, `pick`, `getVisibleAttributes` |
| `change_detector.dfy` | `ChangeDetector` | `differentKeys` |
| `correlation.dfy` | `Correlation` | scope keys, trigger classification, the operation context (a class) |
| `tracking_cache.dfy` | `TrackingCache` | cache entries, `track` (the `Cache` class), list views and finalisation |
| `association.dfy` | `AssociationHooks` | `_wrappedBeforeUpdateAssociation` and the bulk before-loop |
| `audit_log.dfy` | `AuditLog` | `_wrappedAfterUpdateAssociation`, the id patch, records |
| `batch_audit.dfy` | `BatchAudit` | the bulk and setter after-hooks |
| `setter.dfy` | `SetterDiff` | `setDataValue` and the membership diff of `wrappedBeforeNonThroughSetter` |
| `direct_entry.dfy` | `DirectHooks` | `_wrappedBeforeUpdate` / `_wrappedAfterUpdate` |

Modelling choices:

- **Objects.** A JavaScript object is a sequence of properties in insertion order.
  - Reading an absent property gives `Undefined`.
  - Values are compared with Dafny's `==` where the source uses lodash `_.isEqual`. The two agree on everything except nested objects whose keys differ only in order (see "## Left out").
- **Before-phase payloads.** They are the `Param` datatype, stored in the `Context` class's `params` map.
- **The tracking cache.** It is a `Cache` class whose `Track` method updates its `entries` map in place.
  - It also keeps `order`, the order in which owners were first touched, and the finalisation enumerates the cache in that order.
- **The list "after" view.** It is `ListView(slots, length)`.
  - Each slot keeps the member id, its snapshot and its `__position` tag as separate fields.
  - Stripping the tags at finalisation is therefore taking the snapshots.
- **Loops in the source** are methods with loops, each proved equal to a specification function:
  - the `_.each` in `_wrappedBeforeUpdate`;
  - the baseline loop of `track`;
  - the bulk and setter `for` loops;
  - the update loop of `_wrappedAfterUpdateAssociation`;
  - the finalisation `_.each`;
  - the two loops of the setter diff.
- **Database reads are parameters.** `scope.get` is a map from owner id to rows (`db`). The setter's current members and targets are sequences of instances. So are the bulk instances.
- **Scope keys.** The direct hooks call `getScopeKey(model, options)` without an alias, so their keys contain the text `undefined` (`DirectHooks.NoAlias`).

Two behaviours of the code that are easy to miss:

- An empty single association reads as `''`, not `null` (`enhancers/tracking.js:154`). So the single-association finalisation through `safe` drops that side from the record.
- The bulk and setter after-phases report every cached owner in one record, however many members touched it.

## Model

| member | source | states |
|---|---|---|
| JsValues.Put | enhancers/tracking.js:178-181 | assigning a property keeps an existing key in place or appends a new one, reads back the new value at that key and the old value elsewhere, and keeps the keys distinct |
| JsValues.Extend | enhancers/tracking.js:355 | `_.extend` has the union of both key sets, and every key of the source object reads as the source value and every other key as before |
| JsValues.Project | enhancers/tracking.js:207-208 | lodash `_.pick` keeps exactly the listed keys the object has, with their values, and no key twice |
| Redaction.SafeFields | enhancers/tracking.js:112-118 | `safe` on an object yields an object without repeated keys, with no `undefined`/`null`/`''` value, and with no key the input lacks |
| Redaction.SafeFieldsGet | enhancers/tracking.js:112-118 | each attribute of the cleaned object is absent when its value was empty, `'[redacted]'` when hidden, and its own value otherwise |
| Redaction.Safe | enhancers/tracking.js:94-119 | `null` stays `null`; an array keeps its length and each element becomes its cleaned object; an object becomes its cleaned copy |
| Redaction.SafeItems | enhancers/tracking.js:99-111 | the array branch of `safe` cleans every element, one result per element in order |
| Redaction.PickOrBlank | enhancers/tracking.js:64-74 | `pick` has exactly the listed keys, in the listed order when they are distinct, each with the object's value or `''` where the object lacks it |
| Redaction.Without | enhancers/tracking.js:42-46 | `_.without` keeps exactly the keys that are not excluded |
| Redaction.VisibleAttributes | enhancers/tracking.js:41-47 | the visible attributes start with `id`, are `id` plus the raw attributes, and contain no bookkeeping attribute (`updatedAt`, `updatedBy`, `createdAt`, `createdBy`, `deletedBy`) |
| Redaction.VisibleProjectionHasNoBookkeeping | enhancers/tracking.js:152-154 | a redacted visible projection never carries a bookkeeping attribute, whatever the entity holds |
| Redaction.SafeSnapshot | enhancers/tracking.js:152-154 | a member snapshot has an attribute exactly when it is listed and non-empty, with its value masked when hidden |
| ChangeDetector.AddKey | enhancers/tracking.js:53 | recording a key in the key set adds it once and keeps the set free of duplicates |
| ChangeDetector.Scan | enhancers/tracking.js:51-55 | one pass of `differentKeys` adds exactly the keys of its object whose value differs from the other object's value |
| ChangeDetector.DifferentKeys | enhancers/tracking.js:49-62 | a key is reported if and only if one of the objects has it and the two values there differ; no key is reported twice |
| ChangeDetector.DifferentKeysOfEqual | enhancers/tracking.js:49-62 | comparing an object with itself reports no key |
| ChangeDetector.DifferentKeysSymmetric | enhancers/tracking.js:49-62 | the reported key set does not depend on the argument order |
| Correlation.Decimal | enhancers/tracking.js:34 | the disambiguator renders as one or more decimal digits, a single digit exactly below ten |
| Correlation.DecimalInjective | enhancers/tracking.js:34 | different disambiguators render differently |
| Correlation.ScopeKey | enhancers/tracking.js:32-35 | the scope key ends with the stored disambiguator, or with `1` when none was stored |
| Correlation.ScopeKeysDistinct | enhancers/tracking.js:500-501 | items of a batch with different disambiguators get different scope keys, so their payloads never overwrite each other |
| Correlation.ScopeKeyIsNotSlotName | enhancers/tracking.js:28-35 | a scope key is never a disambiguator parameter name, so storing a payload never clobbers a disambiguator |
| Correlation.SetterKinds | enhancers/tracking.js:76-92 | add and remove triggers are setters, no trigger is both, and the other setters start with `set` |
| Correlation.DestroyIsNotSetter | enhancers/tracking.js:76-80 | `DESTROY` and `BULKDESTROY` are not setters, so the direct and association hooks handle them |
| Correlation.LookupAfterStore | enhancers/tracking.js:29-33 | a fresh context reads `{}` under every name; a stored payload reads back as stored; storing under one name leaves every other name's payload unchanged |
| Correlation.Context.Set | enhancers/tracking.js:182-186 | storing a payload under a name replaces that one parameter only |
| Correlation.Context.SetScopeKey | enhancers/tracking.js:28-30 | after `setScopeKey`, `getScopeKey` for the same model and alias yields the key with the new disambiguator; no other parameter changes |
| TrackingCache.Drop | enhancers/tracking.js:349 | deleting a member keeps exactly the slots of the other members |
| TrackingCache.MergeSlot | enhancers/tracking.js:355 | `_.extend` on a member's slot changes that member's snapshot only, slot by slot, and keeps the number of slots |
| TrackingCache.BaselineView | enhancers/tracking.js:335-342 | building the list view from the baseline sets the `length` counter to the number of baseline members |
| TrackingCache.MemberRecord | enhancers/tracking.js:319-322 | a member with a truthy id keeps its values; a member without one takes the temporary id |
| TrackingCache.TrackEntry | enhancers/tracking.js:323-330 | an owner touched before keeps its id, type, cardinality and baseline; on first touch they become the owner id, the scope's name and cardinality and the fetched baseline |
| TrackingCache.SortByPositionSorts | enhancers/tracking.js:440 | `_.sortBy` on `__position` (TrackingCache.SortByPosition) yields the same slots, as a multiset, in non-decreasing position order |
| TrackingCache.InsertByPositionSorts | enhancers/tracking.js:440 | inserting one slot into a position-ordered list keeps it ordered and adds exactly that slot |
| TrackingCache.FinalList | enhancers/tracking.js:440-441 | finalising a list yields one snapshot per slot |
| TrackingCache.SortSorted | enhancers/tracking.js:440 | sorting slots that are already in position order changes nothing (the sort is stable and positions are distinct) |
| TrackingCache.FinalListInSlotOrder | enhancers/tracking.js:440-441 | finalising a valid list view lists the snapshots in slot order, without tags or counter |
| TrackingCache.DropKeepsOrder | enhancers/tracking.js:349 | deleting a member keeps the remaining slots in position order with distinct ids |
| TrackingCache.AppendKeepsOrder | enhancers/tracking.js:351-353 | a slot with a later position and a new id can be appended without breaking the order |
| TrackingCache.MergeKeepsOrder | enhancers/tracking.js:355 | merging changes into a slot touches no id and no position, so the order survives |
| TrackingCache.ApplyKeepsValid | enhancers/tracking.js:347-363 | every transition of `track` (remove, add, update; list or single) keeps the view valid: ids distinct, positions increasing and below `length` |
| TrackingCache.BaselineValid | enhancers/tracking.js:335-342 | the view built from any baseline is valid, even if member ids repeat |
| TrackingCache.BaselinePositions | enhancers/tracking.js:338-342 | with distinct member ids, the `i`-th baseline member gets position `i`, in baseline order, and `length` is the member count |
| TrackingCache.AddedGoesLast | enhancers/tracking.js:350-353 | an added member goes after every remaining member with the next position, `length` grows by one, and the final list ends with its snapshot |
| TrackingCache.RemovedKeepsOrder | enhancers/tracking.js:348-349 | a removed member disappears, `length` is unchanged and the others keep their positions and order |
| TrackingCache.UpdatedMergesChanges | enhancers/tracking.js:354-355 | an update merges the changed attributes into the member's own slot only and keeps every id, position and the counter |
| TrackingCache.SingleTransitions | enhancers/tracking.js:357-363 | on a single association, removal sets `''`, addition replaces the value, and an update merges into an existing value and leaves `''` alone |
| TrackingCache.DropOne | enhancers/tracking.js:349 | deleting a member whose id is unique removes exactly its slot |
| TrackingCache.LeaveKeepsBaselineOrder | enhancers/tracking.js:338-349 | removing a baseline member leaves the other baseline members, in their baseline order, as the final list |
| TrackingCache.JoinFollowsBaseline | enhancers/tracking.js:338-353 | adding a new member to a fresh list gives the baseline members in order followed by the new member's snapshot |
| TrackingCache.PositionedFinal | enhancers/tracking.js:440-441 | finalising a freshly built list gives back its members in order |
| TrackingCache.BuildListView | enhancers/tracking.js:335-342 | the baseline loop of `track` builds exactly the baseline view |
| TrackingCache.StoreKeepsValid | enhancers/tracking.js:387 | storing an entry for an owner, enrolled on first touch, keeps each owner cached once with valid views |
| TrackingCache.ContributeKeepsValid | enhancers/tracking.js:347-363 | applying a member's contribution keeps the entry's view valid |
| TrackingCache.FreshEntry | enhancers/tracking.js:323-346 | the first touch sets the id, type, cardinality and baseline and derives a valid after-view from the baseline |
| TrackingCache.Cache.constructor | enhancers/tracking.js:499 | a new cache is empty |
| TrackingCache.Cache.Track | enhancers/tracking.js:318-365 | `track` replaces the owner's entry with the tracked entry and enrols a first-touched owner last in the order, keeping the cache valid |
| AssociationHooks.Contributions | enhancers/tracking.js:384-405 | a member change touches at most two owners |
| AssociationHooks.ContributionRules | enhancers/tracking.js:384-405 | only truthy owners are touched, never twice, a removal comes first; removal iff destroyed from the current owner or moved from the previous; addition iff moved to the current owner; update iff the owner is unchanged |
| AssociationHooks.BaselineOf | enhancers/tracking.js:151-154 | a list baseline is the redacted visible projection of every row, in order; a single baseline is `''` exactly when there is no row |
| AssociationHooks.TrackAllFrame | enhancers/tracking.js:384-405 | a member's contributions create or change the entries of its own owners and leave every other entry as it was |
| AssociationHooks.BaselineFixedAtFirstTouch | enhancers/tracking.js:323-346 | an owner already touched keeps its id, type, cardinality and baseline; an owner first touched gets the baseline the database holds for it |
| AssociationHooks.TrackOwner | enhancers/tracking.js:396-400 | tracking one owner is one more step of the cache's specification, and the owner is appended to `updates` |
| AssociationHooks.TrackContributions | enhancers/tracking.js:384-405 | the three branches track exactly the member's contributions, in order, and return their owners as `updates` |
| AssociationHooks.BeforeUpdateAssociation | enhancers/tracking.js:367-411 | a member with no change that is neither created nor destroyed touches neither cache nor context; otherwise its contributions are tracked and `{updates, created}` is stored under its scope key |
| AssociationHooks.BeforeBatchStep | enhancers/tracking.js:500-506 | one iteration sets disambiguator `i`, tracks instance `i` in the shared cache and publishes its updates without disturbing earlier ones |
| AssociationHooks.BeforeBatchAssociation | enhancers/tracking.js:499-506 | after the loop the shared cache holds the batch's specification and every instance with something to record has its updates under its own scope key |
| AssociationHooks.MemberOwnersTruthy | enhancers/tracking.js:385-401 | only truthy owners receive contributions |
| AssociationHooks.BatchBaseline | enhancers/tracking.js:499-506 | after a batch every cached owner is truthy and carries its own id, the association's type and cardinality and the baseline the database held for it |
| AuditLog.Render | enhancers/tracking.js:152-154 | a snapshot renders as an empty value exactly when it is absent, and a list renders element by element |
| AuditLog.PatchCreated | enhancers/tracking.js:430-436 | the id patch keeps the entry's id, type, cardinality and baseline |
| AuditLog.PatchSetsId | enhancers/tracking.js:430-436 | the patch sets `id` to the real id in the single value, or in the slot keyed by the scope key, and changes no other property, slot, position or counter |
| AuditLog.PatchKeepsValid | enhancers/tracking.js:430-436 | the patch keeps the after-view valid |
| AuditLog.ListRecord | enhancers/tracking.js:439-457 | a list record is an `UPDATE` of the owner, with the baseline as `before` and, as `after`, the snapshots in slot order with tags and counter gone |
| AuditLog.SingleRecord | enhancers/tracking.js:442-457 | a single-association record has an empty `before` exactly when there was no value (a creation) and an empty `after` exactly when it was removed, and otherwise the snapshot |
| AuditLog.SafeSingle | enhancers/tracking.js:443-444 | `safe` on a one-property payload keeps the property unless its value is empty |
| AuditLog.Patched | enhancers/tracking.js:429-436 | patching keeps the set of cached owners |
| AuditLog.PatchedKeeps | enhancers/tracking.js:429-436 | patching only changes after-views, and only of the listed owners of a created member |
| AuditLog.PatchedKeepsValid | enhancers/tracking.js:429-436 | patching keeps the cache valid |
| AuditLog.PatchAndLog | enhancers/tracking.js:429-459 | the loop patches every listed owner of a created member and, with a sink, emits one finalised record per update in update order, and none without |
| AuditLog.AfterUpdateAssociation | enhancers/tracking.js:423-464 | the after-phase reads the updates under the member's scope key, patches their entries if the member was created, leaves the order alone, and emits one record per update |
| BatchAudit.MemberReady | enhancers/tracking.js:384-405 | a member's updates name each owner once, and each has a cache entry once tracked |
| BatchAudit.BatchKeysGrow | enhancers/tracking.js:500-506 | later instances of a batch never drop an owner from the cache |
| BatchAudit.BatchReady | enhancers/tracking.js:500-507 | after the before-loop, the updates under every instance's scope key name distinct owners that all have a cache entry |
| BatchAudit.OwnersTracked | enhancers/tracking.js:500-506 | an instance's owners are distinct and all cached once the whole batch is tracked |
| BatchAudit.AfterBatchEntries | enhancers/tracking.js:534-537 | the after-loop keeps the owners and every entry's id, type, cardinality and baseline |
| BatchAudit.AfterBatchStep | enhancers/tracking.js:534-537 | one iteration sets disambiguator `i` and patches the owners instance `i` stored |
| BatchAudit.FinaliseAll | enhancers/tracking.js:538-558 | every cached owner, in order, becomes its finalised record |
| BatchAudit.AfterBatchAssociation | enhancers/tracking.js:511-563 | every instance patches its owners under its own disambiguator, then every cached owner is reported exactly once in first-touch order; the same code runs in `afterNonThroughSetter` (lines 634-676) |
| BatchAudit.BatchAuditBaseline | enhancers/tracking.js:534-558 | whatever the patches did, each cached owner keeps its own id, type, cardinality and pre-batch baseline |
| BatchAudit.RecordsPerOwner | enhancers/tracking.js:538-558 | no two records share an owner id, and every cached owner has a record |
| SetterDiff.SetDataValueEffect | enhancers/tracking.js:602 | `setDataValue` stores the value and marks the key changed exactly when it differs from the loaded value |
| SetterDiff.SetDataValueTwice | enhancers/tracking.js:600-602 | clearing the foreign key twice (two targets with the member's id) is clearing it once |
| SetterDiff.HasIdMeans | enhancers/tracking.js:599-600 | a row list "has an id" exactly when some row carries that id |
| SetterDiff.MatchTargets | enhancers/tracking.js:599-608 | comparing a member with every target sets `found` iff a target matches outside `remove…`, clears the foreign key iff a target matches under `remove…`, and flags every matching target |
| SetterDiff.MemberLoop | enhancers/tracking.js:597-615 | the first loop pushes each member's outcome in order and flags exactly the targets some member matches |
| SetterDiff.TargetLoop | enhancers/tracking.js:616-621 | the second loop pushes every unflagged target, in order, pointed at the owner |
| SetterDiff.MembershipDiff | enhancers/tracking.js:596-621 | the instances are the members' outcomes followed by the unmatched targets pointed at the owner |
| SetterDiff.MemberPartSource | enhancers/tracking.js:597-615 | every instance from the first loop is the outcome of some member |
| SetterDiff.UnmatchedHas | enhancers/tracking.js:616-620 | every target no member matches is among the unmatched ones |
| SetterDiff.TargetPartHas | enhancers/tracking.js:616-621 | every target no member matches is pushed, pointed at the owner |
| SetterDiff.StayContribution | enhancers/tracking.js:373-375 | a loaded row left untouched contributes nothing |
| SetterDiff.LeaveContribution | enhancers/tracking.js:611 | a loaded row whose foreign key is cleared leaves its owner, if it had one |
| SetterDiff.JoinContribution | enhancers/tracking.js:618 | a loaded row pointed at another owner leaves its old owner, if any, and joins the new one |
| SetterDiff.MemberClassification | enhancers/tracking.js:597-615 | `set…` removes every member it does not name; `add…` leaves members alone; `remove…` removes exactly the members it names; a member that `set…` or `add…` names is not pushed |
| SetterDiff.RemoveReportsNonMemberAsAdded | enhancers/tracking.js:616-620 | as written, `remove…` naming a non-member pushes it pointed at the owner, so the owner records it as added |
| SetterDiff.RemoveNonMemberExample | enhancers/tracking.js:616-620 | removing row 5 (owner 7) from owner 1 reports it leaving owner 7 and joining owner 1 |
| SetterDiff.IntendedRemoveAddsNothing | enhancers/tracking.js:596-621 | under the corrected diff every instance a `remove…` pushes is a current member, detached or untouched, and no owner records an addition |
| SetterDiff.UnmatchedOfMembers | enhancers/tracking.js:616-620 | a target some member matches is never pushed by the second loop |
| SetterDiff.IntendedAgrees | enhancers/tracking.js:596-621 | the corrected diff equals the written one except for a `remove…` naming a non-member |
| DirectHooks.Capture | enhancers/tracking.js:176-181 | the captured payload has exactly the changed keys, each with its value in the source |
| DirectHooks.CaptureChanges | enhancers/tracking.js:178-181 | the loop builds exactly the captured `before` (previous values) and `after` (current values) |
| DirectHooks.BeforeUpdate | enhancers/tracking.js:168-188 | the payload is stored under the model's scope key, which stays the same, and reads back as the changes (or `{}` when nothing happened) |
| DirectHooks.DirectRecord | enhancers/tracking.js:199-223 | no record without a tracking key; otherwise `DELETE` iff destroyed, the instance's type, id and user; both sides have exactly the keys whose visible, redacted values differ, in the same order, each showing the value or `''` |
| DirectHooks.VisibleGet | enhancers/tracking.js:207-208 | the visible projection has exactly the listed attributes with a non-empty value, each masked when hidden |
| DirectHooks.RecordIffRelevant | enhancers/tracking.js:173-186 | an instance gets a record exactly when it has changes, is created or is destroyed |
| DirectHooks.ReportedAttributes | enhancers/tracking.js:207-217 | an attribute is reported iff it changed, is visible and its shown value differs; each side shows the value, `'[redacted]'`, or `''` |
| DirectHooks.CreatedRecord | enhancers/tracking.js:207-217 | a created instance (nothing loaded) yields an `UPDATE` that reports exactly its changed visible attributes with a value, each with `''` as `before` and its shown value as `after` |
| DirectHooks.HiddenChangeNotReported | enhancers/tracking.js:207-209 | a hidden attribute that keeps some value is never reported, whatever it changed to |

## Left out

- Timing: `start`/`end` (perfy), `executionTime` and the random, time-based tracking key (`enhancers/tracking.js:17-22, 37-39`) are not modelled.
  - A stored `ChangesParam` or `UpdatesParam` stands for a payload that carries a tracking key.
  - Records carry no `executionTime`, and no `reference` string, which is `type-id` and so follows from the fields kept.
- Database access: `model.findOne` in `scope.get`, `target.findAll` in the setter and `utils.getBulkedInstances` are parameters.
  - `scope.get` is a map from owner id to rows.
  - The setter's current members and targets are sequences of instances.
  - The bulk instances come already updated. Applying `options.attributes` with `setDataValue` (`enhancers/tracking.js:492-497`) is not modelled.
- Normalisation of the setter's inputs (`enhancers/tracking.js:576-595`) is not modelled: `before`/`values` to arrays, instances to ids, and the `findAll`. The diff starts from the two row lists.
- The `{cache}` / `{cache, instances}` hand-over from the bulk and setter before-hooks to their after-hooks through the operation context (`enhancers/tracking.js:507, 532, 630, 645`) is not modelled. The after-phase receives the cache object directly.
  - With `setTriggerParams` replacing the named parameter, line 507 would store `{cache}` under the last instance's scope key and overwrite that instance's `{updates, created}`. The after-loop would then never patch the last member's real id. The model avoids this collision only because it does not model the hand-over; how `utils` stores parameters is not visible here.
- `utils` is not part of this model.
  - `setTriggerParams` is modelled as replacing the named parameter.
  - `getTriggerParams` reads an absent parameter as `{}`.
  - `getName`, `getRawAttributes` and `getHiddenAttributes` become strings, a key list and a set.
- Object key order: JavaScript enumerates integer-like keys first, in ascending order. The model keeps insertion order everywhere.
  - ChangeDetector.DifferentKeys: compares values with `==`, so an attribute holding a nested object whose keys differ only in order is reported, where `_.isEqual` (lines 52, 57) treats the two objects as equal.
  - AfterBatchAssociation: reports owners in first-touch order. `_.each(cache)` in the source visits numeric owner ids in ascending order.
  - The list "after" view is keyed by member id, so its enumeration order is unmodelled for the same reason. Its final order comes from the positions, which the model does capture.
- Hook registration and the `isSetter` guards of the exported wrappers (`enhancers/tracking.js:190-197, 225-234, 413-421, 466-473, 816-984`) are not modelled. The guard predicates themselves are modelled (Correlation.IsSetter and its siblings).
- The bulk create/update/destroy loops of the direct hooks (`enhancers/tracking.js:236-316`) are not modelled. The through-association setters and the propagated-update path (`enhancers/tracking.js:678` onwards) are not modelled either.
- `Promise.all`, the awaits, the logger sink and the transaction code (commented out in the source) are not modelled: the model is sequential. The sink is replaced by the returned record sequence.
- `changed()` / `changedWithVirtuals()` (`enhancers/tracking.js:7-15`) and `toJSON()` are not modelled. An instance is its values, its loaded values and its list of changed keys.
  - `setDataValue` is modelled as Sequelize documents it: it stores the value and marks the key changed when it differs from the loaded value.
- Numbers: JavaScript numbers are doubles, and the model's `Num` holds an unbounded integer. Fractional values, `NaN`, `-0` and `Date` objects have no counterpart in the model. The core only copies attribute values and compares them (`_.isEqual`, `!==`) and does no arithmetic on them, so none of its behaviour depends on that representation.
- Owner and member ids: TrackingCache.Cache keys its entries by the id value, and a list view's slots are keyed the same way. In JavaScript `cache[id]` and `after[as][id]` turn every id into a property name, so `1` and `'1'` share one entry there. The model keeps them apart, so it can hold two entries where the source holds one.
- DirectHooks.DirectRecord: follows the code for a creation. `pick(safeBefore, keys)` (line 216) gives every reported attribute `''` in `before` (DirectHooks.CreatedRecord). The repository's own test of `db.user.create` (tests/enhancers/tracking.spec.js:83-96) expects `before: {}`. The sink wrapper that might remove those values is not part of this model.
- Redaction.Safe: requires an object, `null` or an array of objects. A string or a nested array would be walked character by character or index by index, and the hooks never pass one.
- SetterDiff.MembershipDiff: requires that the foreign key is not the primary key `id`, as it never is for a non-through association.

## Findings

| source | as written | input that shows it | evidently intended | confidence | as-written member | corrected member |
|---|---|---|---|---|---|---|
| enhancers/tracking.js:616-620 | under `remove…`, every target that no current member matches gets the owner's id as foreign key and is pushed | owner 1 with no members; `removeItems` naming row 5, whose owner is 7: row 5 is reported as leaving owner 7 and joining owner 1 | a `remove…` call only detaches current members; an unmatched target is left alone | not executed | SetterDiff.RemoveReportsNonMemberAsAdded | SetterDiff.IntendedRemoveAddsNothing |
