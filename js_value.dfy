/**
 * Loosely-typed JavaScript values as the realtime database delivers them
 * (`snapshot.val()`) and as the pages read them.
 *
 * Objects are lists of entries in their enumeration order (the order
 * `Object.keys` reports). Numbers are integers.
 */
module JsValue {
  import opened JsText

  datatype Value =
    | Undefined
    | Null
    | Bool(b: bool)
    | Num(n: int)
    | Str(s: string)
    | Arr(items: seq<Value>)
    | Obj(entries: seq<Entry>)

  datatype Entry = Entry(key: string, val: Value)

  /** JavaScript truthiness: `undefined`, `null`, `false`, `0` and `''` are falsy; arrays and objects never are. */
  predicate Truthy(v: Value) {
    match v
    case Undefined => false
    case Null => false
    case Bool(b) => b
    case Num(n) => n != 0
    case Str(s) => s != ""
    case Arr(_) => true
    case Obj(_) => true
  }

  predicate IsNullish(v: Value) {
    v.Undefined? || v.Null?
  }

  // ------------------------------------------------------------- entries

  function Values(es: seq<Entry>): (vs: seq<Value>)
    ensures |vs| == |es|
    ensures forall i :: 0 <= i < |es| ==> vs[i] == es[i].val
  {
    if es == [] then [] else [es[0].val] + Values(es[1..])
  }

  predicate HasKey(es: seq<Entry>, k: string) {
    exists i :: 0 <= i < |es| && es[i].key == k
  }

  /** No key occurs twice, as in every JavaScript object. */
  predicate DistinctKeys(es: seq<Entry>) {
    forall i, j :: 0 <= i < j < |es| ==> es[i].key != es[j].key
  }

  /** The value stored under `k`, or `undefined` when there is none. */
  function Lookup(es: seq<Entry>, k: string): Value {
    if es == [] then Undefined
    else if es[0].key == k then es[0].val
    else Lookup(es[1..], k)
  }

  /** An absent key reads as `undefined`; a present key of a duplicate-free list reads as its entry. */
  lemma {:induction false} LookupSpec(es: seq<Entry>, k: string)
    ensures !HasKey(es, k) ==> Lookup(es, k) == Undefined
    ensures forall i :: 0 <= i < |es| && es[i].key == k && DistinctKeys(es) ==> Lookup(es, k) == es[i].val
  {
    if es != [] {
      LookupSpec(es[1..], k);
      if !HasKey(es, k) {
        assert !HasKey(es[1..], k) by {
          forall i | 0 <= i < |es| - 1 ensures es[1..][i].key != k {
            assert es[i + 1].key != k;
          }
        }
      }
      forall i | 0 <= i < |es| && es[i].key == k && DistinctKeys(es) ensures Lookup(es, k) == es[i].val {
        if i > 0 {
          assert es[0].key != k;
          assert es[1..][i - 1] == es[i];
        }
      }
    }
  }

  /** In a duplicate-free list, every entry's key reads as that entry's value. */
  lemma LookupAt(es: seq<Entry>, i: int)
    requires DistinctKeys(es) && 0 <= i < |es|
    ensures Lookup(es, es[i].key) == es[i].val
  {
    LookupSpec(es, es[i].key);
  }

  /** Index-keyed entries `"0"`, `"1"`, ... as arrays and strings expose them. */
  function IndexEntries(items: seq<Value>): (es: seq<Entry>)
    ensures |es| == |items|
    ensures forall i :: 0 <= i < |items| ==> es[i] == Entry(NatToString(i), items[i])
  {
    seq(|items|, i requires 0 <= i < |items| => Entry(NatToString(i), items[i]))
  }

  function Chars(s: string): (cs: seq<Value>)
    ensures |cs| == |s|
    ensures forall i :: 0 <= i < |s| ==> cs[i] == Str([s[i]])
  {
    seq(|s|, i requires 0 <= i < |s| => Str([s[i]]))
  }

  /**
   * The own enumerable properties of `v`, in the order `Object.keys`,
   * `Object.values` and object spread visit them: an object's entries, an
   * array's or a string's indices, nothing for the other primitives.
   */
  function OwnEntries(v: Value): seq<Entry> {
    match v
    case Obj(es) => es
    case Arr(xs) => IndexEntries(xs)
    case Str(s) => IndexEntries(Chars(s))
    case _ => []
  }

  /**
   * Property read `v[k]` for an own property. Built-in prototype properties
   * (such as `length`) are not modelled; no field name read here is one.
   */
  function Get(v: Value, k: string): Value {
    Lookup(OwnEntries(v), k)
  }

  /** Arrays and strings never repeat an index key, and an index key is all digits. */
  lemma IndexEntriesWellFormed(items: seq<Value>)
    ensures DistinctKeys(IndexEntries(items))
    ensures forall i :: 0 <= i < |items| ==> AllDigits(IndexEntries(items)[i].key)
  {
    var es := IndexEntries(items);
    forall i, j | 0 <= i < j < |es| ensures es[i].key != es[j].key {
      if es[i].key == es[j].key {
        NatToStringInjective(i, j);
      }
    }
    forall i | 0 <= i < |items| ensures AllDigits(es[i].key) {
      NatToStringRoundTrip(i);
    }
  }

  /** Well-formed at the top level: no key occurs twice. */
  predicate KeysDistinct(v: Value) {
    DistinctKeys(OwnEntries(v))
  }

  lemma OwnEntriesDistinct(v: Value)
    requires v.Obj? ==> DistinctKeys(v.entries)
    ensures KeysDistinct(v)
  {
    match v
    case Arr(xs) => IndexEntriesWellFormed(xs);
    case Str(s) => IndexEntriesWellFormed(Chars(s));
    case _ =>
  }

  // -------------------------------------------------------- to string

  /** `String(v)`, as a template literal `${v}` converts it. */
  function ToText(v: Value): string
    decreases v, 1
  {
    match v
    case Undefined => "undefined"
    case Null => "null"
    case Bool(b) => if b then "true" else "false"
    case Num(n) => IntToString(n)
    case Str(s) => s
    case Arr(xs) => JoinElements(xs, ",")
    case Obj(_) => "[object Object]"
  }

  /** How `Array.prototype.join` renders one element: `null` and `undefined` become `''`. */
  function ElementText(v: Value): string
    decreases v, 2
  {
    if IsNullish(v) then "" else ToText(v)
  }

  /** `xs.join(sep)` */
  function JoinElements(xs: seq<Value>, sep: string): string
    decreases xs, 0
  {
    if |xs| == 0 then ""
    else if |xs| == 1 then ElementText(xs[0])
    else ElementText(xs[0]) + sep + JoinElements(xs[1..], sep)
  }
}
