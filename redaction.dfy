/** The audit-safe projection of an entity: which attributes are visible
    (`getVisibleAttributes`), how a snapshot is cleaned and redacted (`safe`),
    and how a payload is cut down to a key list (`pick`). */
module Redaction {
  import opened JsValues

  /** The marker that replaces the value of a hidden attribute. */
  const Redacted: Value := Str("[redacted]")

  /** Audit bookkeeping attributes that never appear in a projection. */
  const Bookkeeping: set<Key> := {"updatedAt", "updatedBy", "createdAt", "createdBy", "deletedBy"}

  /** The values `safe` drops: `undefined`, `null` and `''`. */
  predicate IsEmptyValue(v: Value) {
    v == Undefined || v == Null || v == Blank
  }

  /** What `safe` writes for a kept property. */
  function Masked(k: Key, v: Value, hidden: set<Key>): Value {
    if k in hidden then Redacted else v
  }

  /** `safe` on one object: walks its properties in order, skips the empty
      ones and assigns the others to a fresh object, masking hidden ones. */
  function SafeFields(r: Record, hidden: set<Key>): (out: Record)
    ensures WellKeyed(out)
    ensures forall i :: 0 <= i < |out| ==> !IsEmptyValue(out[i].val)
    ensures forall j :: Has(out, j) ==> Has(r, j)
    decreases |r|
  {
    if r == [] then []
    else
      var n := |r| - 1;
      var p := SafeFields(r[..n], hidden);
      var f := r[n];
      assert KeysOf(r) == KeysOf(r[..n]) + [f.key];
      PutKeepsValues(p, f.key, Masked(f.key, f.val, hidden));
      var q := Put(p, f.key, Masked(f.key, f.val, hidden));
      assert forall j :: Has(q, j) ==> j == f.key || Has(p, j) by {
        assert KeysOf(q) == KeysOf(p) || KeysOf(q) == KeysOf(p) + [f.key];
      }
      if IsEmptyValue(f.val) then p else q
  }

  /** On an object, `safe` keeps each non-empty property, masked when hidden,
      and nothing else. */
  lemma {:induction false} SafeFieldsGet(r: Record, hidden: set<Key>, j: Key)
    requires WellKeyed(r)
    ensures Get(SafeFields(r, hidden), j) == if IsEmptyValue(Get(r, j)) then Undefined else Masked(j, Get(r, j), hidden)
    decreases |r|
  {
    if r != [] {
      var n := |r| - 1;
      var f := r[n];
      assert r[..n] + [f] == r;
      assert KeysOf(r) == KeysOf(r[..n]) + [f.key];
      assert WellKeyed(r[..n]) by {
        forall a, b | 0 <= a < b < n ensures KeysOf(r[..n])[a] != KeysOf(r[..n])[b] {
          assert KeysOf(r)[a] != KeysOf(r)[b];
        }
      }
      assert !Has(r[..n], f.key) by {
        forall a | 0 <= a < n ensures KeysOf(r[..n])[a] != f.key {
          assert KeysOf(r)[a] != KeysOf(r)[n];
        }
      }
      GetSnoc(r[..n], f, j);
      SafeFieldsGet(r[..n], hidden, j);
    }
  }

  /** Appending a property with a new key does not hide earlier ones. */
  lemma {:induction false} GetSnoc(r: Record, f: Field, j: Key)
    requires !Has(r, f.key)
    ensures Get(r + [f], j) == if j == f.key then f.val else Get(r, j)
  {
    if r != [] {
      assert (r + [f])[1..] == r[1..] + [f];
      assert KeysOf(r) == [r[0].key] + KeysOf(r[1..]);
      GetSnoc(r[1..], f, j);
    }
  }

  /** Assigning a non-empty value keeps a record free of empty values. */
  lemma {:induction false} PutKeepsValues(p: Record, k: Key, v: Value)
    requires forall i :: 0 <= i < |p| ==> !IsEmptyValue(p[i].val)
    ensures !IsEmptyValue(v) ==> forall i :: 0 <= i < |Put(p, k, v)| ==> !IsEmptyValue(Put(p, k, v)[i].val)
  {
    if p != [] && p[0].key != k {
      PutKeepsValues(p[1..], k, v);
      assert Put(p, k, v) == [p[0]] + Put(p[1..], k, v);
    }
  }

  /** The shapes `safe` is ever given: `null`, an object, or an array of
      objects (a string or a nested array would be walked index by index). */
  predicate SafeInput(v: Value) {
    (!v.Str? && !v.Arr?) || (v.Arr? && forall i :: 0 <= i < |v.items| ==> !v.items[i].Str? && !v.items[i].Arr?)
  }

  /** The own enumerable properties of a value that is not a string or an array. */
  function OwnFields(v: Value): Record {
    if v.Rec? then v.fields else []
  }

  /** `safe(value, model)`: `null` stays `null`; an array is cleaned element by
      element; anything else becomes a cleaned copy of its properties. */
  function Safe(v: Value, hidden: set<Key>): (r: Value)
    requires SafeInput(v)
    ensures v == Null ==> r == Null
    ensures v.Arr? ==> r.Arr? && |r.items| == |v.items|
    ensures v.Arr? ==> forall i :: 0 <= i < |v.items| ==> r.items[i] == Rec(SafeFields(OwnFields(v.items[i]), hidden))
    ensures v.Rec? ==> r == Rec(SafeFields(v.fields, hidden))
  {
    match v
    case Null => Null
    case Arr(items) => Arr(SafeItems(items, hidden))
    case _ => Rec(SafeFields(OwnFields(v), hidden))
  }

  /** The elements of an array given to `safe`, each cleaned in turn. */
  function SafeItems(items: seq<Value>, hidden: set<Key>): (r: seq<Value>)
    ensures |r| == |items|
    ensures forall i :: 0 <= i < |items| ==> r[i] == Rec(SafeFields(OwnFields(items[i]), hidden))
    decreases |items|
  {
    if items == [] then []
    else [Rec(SafeFields(OwnFields(items[0]), hidden))] + SafeItems(items[1..], hidden)
  }

  /** `pick(obj, keys)`: every listed key, with `''` where `obj` lacks it. */
  function PickOrBlank(obj: Record, keys: seq<Key>): (r: Record)
    ensures WellKeyed(r)
    ensures forall j :: Has(r, j) <==> j in keys
    ensures forall j :: j in keys ==> Get(r, j) == if Has(obj, j) then Get(obj, j) else Blank
    ensures NoDups(keys) ==> KeysOf(r) == keys
    decreases |keys|
  {
    if keys == [] then []
    else
      var n := |keys| - 1;
      var p := PickOrBlank(obj, keys[..n]);
      var k := keys[n];
      assert keys == keys[..n] + [k];
      assert NoDups(keys) ==> NoDups(keys[..n]) && k !in keys[..n];
      Put(p, k, if Has(obj, k) then Get(obj, k) else Blank)
  }

  /** `_.without(keys, ...excluded)`: `keys` with the excluded ones removed, in order. */
  function Without(keys: seq<Key>, excluded: set<Key>): (r: seq<Key>)
    ensures |r| <= |keys|
    ensures forall k :: k in r <==> k in keys && k !in excluded
    decreases |keys|
  {
    if keys == [] then []
    else if keys[0] in excluded then Without(keys[1..], excluded)
    else [keys[0]] + Without(keys[1..], excluded)
  }

  /** `getVisibleAttributes(model)`: `id` followed by the model's attributes
      other than the bookkeeping ones, in declaration order. */
  function VisibleAttributes(rawAttributes: seq<Key>): (r: seq<Key>)
    ensures |r| >= 1 && r[0] == "id"
    ensures forall k :: k in r <==> k == "id" || (k in rawAttributes && k !in Bookkeeping)
    ensures forall k :: k in r ==> k !in Bookkeeping
  {
    ["id"] + Without(rawAttributes, Bookkeeping)
  }

  /** A projection onto the visible attributes never carries bookkeeping
      fields, whatever the entity holds. */
  lemma VisibleProjectionHasNoBookkeeping(obj: Record, rawAttributes: seq<Key>, hidden: set<Key>, k: Key)
    requires k in Bookkeeping
    ensures !Has(Project(obj, VisibleAttributes(rawAttributes)), k)
    ensures !Has(SafeFields(Project(obj, VisibleAttributes(rawAttributes)), hidden), k)
  {
  }

  /** The audit-safe snapshot of an entity keeps exactly its non-empty
      visible attributes, with hidden ones masked. */
  lemma {:induction false} SafeSnapshot(obj: Record, keys: seq<Key>, hidden: set<Key>, k: Key)
    ensures var s := SafeFields(Project(obj, keys), hidden);
      && (Has(s, k) <==> k in keys && !IsEmptyValue(Get(obj, k)))
      && (Has(s, k) ==> Get(s, k) == Masked(k, Get(obj, k), hidden))
  {
    var p := Project(obj, keys);
    var s := SafeFields(p, hidden);
    SafeFieldsGet(p, hidden, k);
    if Has(s, k) {
      var i := IndexOf(KeysOf(s), k);
      GetAt(s, i);
      assert !IsEmptyValue(s[i].val);
    }
  }

  function IndexOf(s: seq<Key>, k: Key): (i: nat)
    requires k in s
    ensures i < |s| && s[i] == k
  {
    if s[0] == k then 0 else 1 + IndexOf(s[1..], k)
  }
}
