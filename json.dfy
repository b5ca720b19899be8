/**
 * Parsed JSON values and the few JavaScript built-ins the inferencers apply to them:
 * `Object.entries`, `Object.keys` and the array-to-object conversion
 * `Object.fromEntries(array.entries())`.
 */
module JsonValues {
  import opened Wrappers
  import opened JsObject

  /** A value produced by `JSON.parse`, plus `bigint`, which the inferencers also accept.
      Object fields are listed in enumeration order. */
  datatype Json =
    | JNull
    | JBool(b: bool)
    | JNumber(n: real)
    | JBigInt(i: int)
    | JString(s: string)
    | JArray(elems: seq<Json>)
    | JObject(fields: seq<(string, Json)>)

  /** The only error these built-ins raise: `Object.entries(null)` and `Object.keys(null)`
      throw a TypeError ("Cannot convert undefined or null to object"). */
  datatype JsError = NullToObject

  /** True for the values whose `typeof` is "object": null, arrays and objects. */
  predicate IsObjectTyped(v: Json)
  {
    v.JNull? || v.JArray? || v.JObject?
  }

  // ---------------------------------------------------------------------------
  // Array index keys
  // ---------------------------------------------------------------------------

  function Digit(d: nat): char
    requires d < 10
  {
    ('0' as int + d) as char
  }

  function DigitValue(c: char): nat
  {
    if '0' <= c <= '9' then c as int - '0' as int else 0
  }

  /** The property key of array index `i`: its decimal numeral, `String(i)`. */
  function IndexKey(i: nat): string
  {
    if i < 10 then [Digit(i)] else IndexKey(i / 10) + [Digit(i % 10)]
  }

  /** Reads a decimal numeral back (the canonical numeric string of an index key). */
  function DecimalValue(s: string): nat
  {
    if s == [] then 0 else 10 * DecimalValue(s[..|s| - 1]) + DigitValue(s[|s| - 1])
  }

  /** An index key reads back as the index it was made from. */
  lemma {:induction false} DecimalValueOfIndexKey(i: nat)
    ensures DecimalValue(IndexKey(i)) == i
  {
    if i >= 10 {
      DecimalValueOfIndexKey(i / 10);
      var s := IndexKey(i);
      assert s[..|s| - 1] == IndexKey(i / 10);
    }
  }

  /** Different indices have different keys. */
  lemma IndexKeyInjective(i: nat, j: nat)
    ensures IndexKey(i) == IndexKey(j) ==> i == j
  {
    DecimalValueOfIndexKey(i);
    DecimalValueOfIndexKey(j);
  }

  /** The keys "0", "1", ..., of an array of length `n`. */
  function IndexKeys(n: nat): seq<string>
  {
    seq(n, i requires 0 <= i < n => IndexKey(i))
  }

  lemma IndexKeysDistinct(n: nat)
    ensures Distinct(IndexKeys(n))
  {
    forall i, j | 0 <= i < j < n
      ensures IndexKeys(n)[i] != IndexKeys(n)[j]
    {
      IndexKeyInjective(i, j);
    }
  }

  /** `Object.fromEntries(array.entries())`: the array as an object keyed by its indices. */
  function IndexEntries(elems: seq<Json>): (es: seq<(string, Json)>)
    ensures Keys(es) == IndexKeys(|elems|)
    ensures DistinctKeys(es)
    ensures forall i :: 0 <= i < |elems| ==> es[i] == (IndexKey(i), elems[i])
  {
    var es := seq(|elems|, i requires 0 <= i < |elems| => (IndexKey(i), elems[i]));
    assert Keys(es) == IndexKeys(|elems|);
    IndexKeysDistinct(|elems|);
    es
  }

  // ---------------------------------------------------------------------------
  // Object.entries and Object.keys
  // ---------------------------------------------------------------------------

  /** `Object.entries(v)`: throws on null; an array or a string gives one entry per
      index; a number or boolean has no own enumerable properties. */
  function Entries(v: Json): (r: Result<seq<(string, Json)>, JsError>)
    ensures r.Failure? <==> v.JNull?
    ensures v.JObject? ==> r == Success(v.fields)
    ensures v.JArray? ==> r == Success(IndexEntries(v.elems))
    ensures v.JString? ==> r.Success? && Keys(r.value) == IndexKeys(|v.s|)
    ensures v.JString? ==> forall i :: 0 <= i < |r.value| ==> r.value[i].1 == JString([v.s[i]])
    ensures v.JBool? || v.JNumber? || v.JBigInt? ==> r == Success([])
  {
    match v
    case JNull => Failure(NullToObject)
    case JObject(fields) => Success(fields)
    case JArray(elems) => Success(IndexEntries(elems))
    case JString(s) =>
      var es := seq(|s|, i requires 0 <= i < |s| => (IndexKey(i), JString([s[i]])));
      assert Keys(es) == IndexKeys(|s|);
      Success(es)
    case _ => Success([])
  }

  /** `Object.keys(v)`. */
  function ObjectKeys(v: Json): Result<seq<string>, JsError>
  {
    match Entries(v)
    case Success(es) => Success(Keys(es))
    case Failure(e) => Failure(e)
  }

  // ---------------------------------------------------------------------------
  // Shape predicates and the depth measure
  // ---------------------------------------------------------------------------

  /** Every object reachable in `v` has distinct keys, as every parsed JSON object does. */
  predicate WellFormed(v: Json)
  {
    match v
    case JArray(elems) => forall i :: 0 <= i < |elems| ==> WellFormed(elems[i])
    case JObject(fields) =>
      DistinctKeys(fields) && forall i :: 0 <= i < |fields| ==> WellFormed(fields[i].1)
    case _ => true
  }

  /** No `null` is reachable in `v`, `v` itself included. */
  predicate NullFree(v: Json)
  {
    match v
    case JNull => false
    case JArray(elems) => forall i :: 0 <= i < |elems| ==> NullFree(elems[i])
    case JObject(fields) => forall i :: 0 <= i < |fields| ==> NullFree(fields[i].1)
    case _ => true
  }

  /** The largest number in `xs`, 0 for none. */
  function MaxOf(xs: seq<nat>): nat
  {
    if xs == [] then 0
    else
      var m := MaxOf(xs[..|xs| - 1]);
      if m < xs[|xs| - 1] then xs[|xs| - 1] else m
  }

  lemma {:induction false} MaxOfBound(xs: seq<nat>, i: nat)
    requires i < |xs|
    ensures xs[i] <= MaxOf(xs)
  {
    if i < |xs| - 1 {
      MaxOfBound(xs[..|xs| - 1], i);
    }
  }

  /** Nesting depth of arrays and objects: 0 for a leaf, 1 + the deepest member otherwise. */
  function Depth(v: Json): nat
  {
    match v
    case JArray(elems) =>
      1 + MaxOf(seq(|elems|, i requires 0 <= i < |elems| => Depth(elems[i])))
    case JObject(fields) =>
      1 + MaxOf(seq(|fields|, i requires 0 <= i < |fields| => Depth(fields[i].1)))
    case _ => 0
  }

  /** The depths of the values of a list of entries. */
  function EntryDepths(es: seq<(string, Json)>): seq<nat>
  {
    seq(|es|, i requires 0 <= i < |es| => Depth(es[i].1))
  }

  /** The deepest value among a list of entries. */
  function EntriesDepth(es: seq<(string, Json)>): nat
  {
    MaxOf(EntryDepths(es))
  }

  /** Entries depth grows one entry at a time, as the inferencers' loops do. */
  lemma EntriesDepthSnoc(es: seq<(string, Json)>)
    requires es != []
    ensures EntriesDepth(es[..|es| - 1]) <= EntriesDepth(es)
    ensures Depth(es[|es| - 1].1) <= EntriesDepth(es)
  {
    assert EntryDepths(es[..|es| - 1]) == EntryDepths(es)[..|es| - 1];
  }

  /** Every entry of an array or object is shallower than the array or object itself;
      the entries of anything else are leaves. */
  lemma EntriesShallower(v: Json)
    requires !v.JNull?
    ensures v.JArray? || v.JObject? ==> EntriesDepth(Entries(v).value) < Depth(v)
    ensures forall i :: 0 <= i < |Entries(v).value| ==>
              Depth(Entries(v).value[i].1) <= EntriesDepth(Entries(v).value)
    ensures !(v.JArray? || v.JObject?) ==>
              forall i :: 0 <= i < |Entries(v).value| ==> Entries(v).value[i].1.JString?
  {
    var es := Entries(v).value;
    forall i | 0 <= i < |es| ensures Depth(es[i].1) <= EntriesDepth(es) {
      MaxOfBound(EntryDepths(es), i);
    }
    match v
    case JArray(elems) =>
      assert EntryDepths(es) == seq(|elems|, i requires 0 <= i < |elems| => Depth(elems[i]));
    case JObject(fields) =>
      assert EntryDepths(es) == seq(|fields|, i requires 0 <= i < |fields| => Depth(fields[i].1));
    case _ =>
  }

  /** Converting an array to its index-keyed object keeps its depth. */
  lemma ArrayAsObjectDepth(elems: seq<Json>)
    ensures Depth(JObject(IndexEntries(elems))) == Depth(JArray(elems))
  {
    var es := IndexEntries(elems);
    assert seq(|es|, i requires 0 <= i < |es| => Depth(es[i].1))
        == seq(|elems|, i requires 0 <= i < |elems| => Depth(elems[i]));
  }
}
