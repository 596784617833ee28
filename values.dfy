/** JavaScript values as the audit engine handles them, and the object
    operations it relies on: property read and assignment, `_.has`,
    lodash `_.pick` and `_.extend`.

    An object is an ordered list of own properties (insertion order); reading
    an absent property yields `undefined`, so lodash's deep equality on these
    values is Dafny's `==`. */
module JsValues {

  type Key = string

  datatype Option<T> = None | Some(value: T)

  datatype Value =
    | Undefined
    | Null
    | Bool(b: bool)
    | Num(n: int)
    | Str(s: string)
    | Rec(fields: seq<Field>)
    | Arr(items: seq<Value>)

  datatype Field = Field(key: Key, val: Value)

  /** The own properties of an object, in insertion order. */
  type Record = seq<Field>

  /** The empty string, which the engine uses as "no value". */
  const Blank: Value := Str("")

  /** JavaScript truthiness (`if (x)`, `!x`, `!!x`). */
  predicate Truthy(v: Value) {
    match v
    case Undefined => false
    case Null => false
    case Bool(b) => b
    case Num(n) => n != 0
    case Str(s) => s != ""
    case _ => true
  }

  predicate NoDups<T(==)>(s: seq<T>) {
    forall i, j :: 0 <= i < j < |s| ==> s[i] != s[j]
  }

  function KeysOf(r: Record): (ks: seq<Key>)
    ensures |ks| == |r|
    ensures forall i :: 0 <= i < |r| ==> ks[i] == r[i].key
  {
    seq(|r|, i requires 0 <= i < |r| => r[i].key)
  }

  /** A record is a JavaScript object when no key occurs twice. */
  predicate WellKeyed(r: Record) {
    NoDups(KeysOf(r))
  }

  /** `_.has(obj, k)`: `k` is an own property of `obj`. */
  predicate Has(r: Record, k: Key) {
    k in KeysOf(r)
  }

  /** `obj[k]`: the value of the first property named `k`, `undefined` if none. */
  function Get(r: Record, k: Key): (v: Value)
    ensures !Has(r, k) ==> v == Undefined
  {
    if r == [] then Undefined
    else if r[0].key == k then r[0].val
    else Get(r[1..], k)
  }

  lemma {:induction false} GetAt(r: Record, i: nat)
    requires WellKeyed(r) && i < |r|
    ensures Get(r, r[i].key) == r[i].val
  {
    if i > 0 {
      assert r[0].key != r[i].key by { assert KeysOf(r)[0] != KeysOf(r)[i]; }
      WellKeyedTail(r);
      assert r[1..][i - 1] == r[i];
      GetAt(r[1..], i - 1);
    }
  }

  /** Dropping the first property of an object leaves an object without
      that property's key. */
  lemma WellKeyedTail(r: Record)
    requires WellKeyed(r) && r != []
    ensures WellKeyed(r[1..]) && !Has(r[1..], r[0].key)
  {
    assert KeysOf(r) == [r[0].key] + KeysOf(r[1..]);
    forall a, b | 0 <= a < b < |r[1..]| ensures KeysOf(r[1..])[a] != KeysOf(r[1..])[b] {
      assert KeysOf(r)[a + 1] != KeysOf(r)[b + 1];
    }
  }

  /** `obj[k] = v`: an existing property keeps its place, a new one is appended. */
  function Put(r: Record, k: Key, v: Value): (r': Record)
    ensures Has(r, k) ==> KeysOf(r') == KeysOf(r)
    ensures !Has(r, k) ==> KeysOf(r') == KeysOf(r) + [k]
    ensures forall j :: Get(r', j) == if j == k then v else Get(r, j)
    ensures WellKeyed(r) ==> WellKeyed(r')
  {
    if r == [] then [Field(k, v)]
    else if r[0].key == k then
      ConsFacts(Field(k, v), r[1..]);
      ConsFacts(r[0], r[1..]);
      assert [r[0]] + r[1..] == r;
      [Field(k, v)] + r[1..]
    else
      var rest := Put(r[1..], k, v);
      ConsFacts(r[0], rest);
      ConsFacts(r[0], r[1..]);
      assert [r[0]] + r[1..] == r;
      assert Has(r, k) == Has(r[1..], k);
      assert KeysOf([r[0]] + rest) == if Has(r, k) then KeysOf(r) else KeysOf(r) + [k];
      assert WellKeyed(r) ==> WellKeyed([r[0]] + rest) by {
        if WellKeyed(r) && !Has(r, k) { NoDupsSnoc(KeysOf(r), k); }
      }
      [r[0]] + rest
  }

  lemma NoDupsSnoc<T>(s: seq<T>, x: T)
    requires NoDups(s) && x !in s
    ensures NoDups(s + [x])
  {
  }

  /** The keys, head and tail of a record with one property put in front. */
  lemma ConsFacts(f: Field, r: Record)
    ensures KeysOf([f] + r) == [f.key] + KeysOf(r)
    ensures ([f] + r)[0] == f && ([f] + r)[1..] == r
  {
    var a, b := KeysOf([f] + r), [f.key] + KeysOf(r);
    forall i | 0 <= i < |a| ensures a[i] == b[i] {
      if i > 0 { assert ([f] + r)[i] == r[i - 1]; }
    }
  }

  /** `_.extend(target, src)`: assigns every property of `src`, in order. */
  function Extend(target: Record, src: Record): (r: Record)
    ensures forall j :: Has(r, j) <==> Has(target, j) || Has(src, j)
    ensures WellKeyed(target) ==> WellKeyed(r)
    ensures WellKeyed(src) ==> forall j :: Get(r, j) == if Has(src, j) then Get(src, j) else Get(target, j)
    decreases |src|
  {
    if src == [] then target
    else
      var t := Put(target, src[0].key, src[0].val);
      var r := Extend(t, src[1..]);
      assert KeysOf(src) == [src[0].key] + KeysOf(src[1..]);
      assert WellKeyed(src) ==> WellKeyed(src[1..]) && !Has(src[1..], src[0].key) by {
        if WellKeyed(src) { WellKeyedTail(src); }
      }
      r
  }

  /** lodash `_.pick(obj, keys)`: the properties of `obj` named in `keys`, in
      the order of `keys`; a key `obj` does not have is left out. */
  function Project(obj: Record, keys: seq<Key>): (r: Record)
    ensures WellKeyed(r)
    ensures forall j :: Has(r, j) <==> j in keys && Has(obj, j)
    ensures forall j :: Get(r, j) == if j in keys then Get(obj, j) else Undefined
    decreases |keys|
  {
    if keys == [] then []
    else
      var p := Project(obj, keys[..|keys| - 1]);
      var k := keys[|keys| - 1];
      assert keys == keys[..|keys| - 1] + [k];
      if Has(obj, k) then Put(p, k, Get(obj, k)) else p
  }
}
