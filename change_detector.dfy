/** `differentKeys`: the attribute keys whose values differ between two
    snapshots of an entity, taken from the union of both sides. */
module ChangeDetector {
  import opened JsValues

  /** `keys[k] = 1` on the local key set: a key already there keeps its place. */
  function AddKey(acc: seq<Key>, k: Key): (r: seq<Key>)
    ensures NoDups(acc) ==> NoDups(r)
    ensures forall j :: j in r <==> j in acc || j == k
  {
    if k in acc then acc else acc + [k]
  }

  /** One `_.each` of `differentKeys`: walks `fields` in order and records
      every key whose value differs from the other object's value there. */
  function Scan(acc: seq<Key>, fields: Record, other: Record): (r: seq<Key>)
    ensures NoDups(acc) ==> NoDups(r)
    ensures WellKeyed(fields) ==> forall k ::
      k in r <==> k in acc || (Has(fields, k) && Get(fields, k) != Get(other, k))
    decreases |fields|
  {
    if fields == [] then acc
    else
      var f := fields[0];
      var acc' := if f.val != Get(other, f.key) then AddKey(acc, f.key) else acc;
      assert KeysOf(fields) == [f.key] + KeysOf(fields[1..]);
      assert WellKeyed(fields) ==> WellKeyed(fields[1..]) && !Has(fields[1..], f.key) by {
        if WellKeyed(fields) {
          forall a, b | 0 <= a < b < |fields[1..]| ensures KeysOf(fields[1..])[a] != KeysOf(fields[1..])[b] {
            assert KeysOf(fields)[a + 1] != KeysOf(fields)[b + 1];
          }
        }
      }
      Scan(acc', fields[1..], other)
  }

  /** `differentKeys(obj1, obj2)`: a key is reported exactly when it belongs to
      either object and the two values there differ, an absent key reading as
      `undefined`; no key is reported twice. */
  function DifferentKeys(a: Record, b: Record): (r: seq<Key>)
    ensures NoDups(r)
    ensures WellKeyed(a) && WellKeyed(b) ==> forall k ::
      k in r <==> (Has(a, k) || Has(b, k)) && Get(a, k) != Get(b, k)
  {
    Scan(Scan([], a, b), b, a)
  }

  /** Comparing an object with itself reports nothing. */
  lemma DifferentKeysOfEqual(a: Record)
    requires WellKeyed(a)
    ensures DifferentKeys(a, a) == []
  {
    forall i | 0 <= i < |a| ensures a[i].val == Get(a, a[i].key) {
      GetAt(a, i);
    }
    ScanAgreeing([], a, a);
  }

  /** A walk over properties that all agree with the other object adds nothing. */
  lemma {:induction false} ScanAgreeing(acc: seq<Key>, fields: Record, other: Record)
    requires forall i :: 0 <= i < |fields| ==> fields[i].val == Get(other, fields[i].key)
    ensures Scan(acc, fields, other) == acc
    decreases |fields|
  {
    if fields != [] {
      ScanAgreeing(acc, fields[1..], other);
    }
  }

  /** The reported keys do not depend on which snapshot comes first. */
  lemma DifferentKeysSymmetric(a: Record, b: Record, k: Key)
    requires WellKeyed(a) && WellKeyed(b)
    ensures k in DifferentKeys(a, b) <==> k in DifferentKeys(b, a)
  {
  }
}
