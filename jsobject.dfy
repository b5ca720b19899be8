/**
 * A JavaScript plain object as the program sees it: an insertion-ordered list of
 * key/value pairs. Both the inferencers' `result[key] = ...` and the object-spread
 * literals of the pack (`{...a, k: v}`) are property assignments, modelled by `Put`:
 * an existing key keeps its position and gets the new value, a new key is appended.
 */
module JsObject {
  import opened Wrappers

  /** The keys of an object, in enumeration order (`Object.keys`). */
  function Keys<V>(p: seq<(string, V)>): seq<string>
  {
    seq(|p|, i requires 0 <= i < |p| => p[i].0)
  }

  /** No string occurs twice. */
  predicate Distinct(ks: seq<string>)
  {
    forall i, j :: 0 <= i < j < |ks| ==> ks[i] != ks[j]
  }

  /** No key occurs twice; every object the program builds or parses has this shape. */
  predicate DistinctKeys<V>(p: seq<(string, V)>)
  {
    Distinct(Keys(p))
  }

  /** Property read `p[k]`: the value stored under `k`, if any. */
  function Lookup<V>(p: seq<(string, V)>, k: string): Option<V>
  {
    if p == [] then None
    else if p[0].0 == k then Some(p[0].1)
    else Lookup(p[1..], k)
  }

  /** Property assignment `p[k] = v`. */
  function Put<V>(p: seq<(string, V)>, k: string, v: V): (r: seq<(string, V)>)
    ensures |r| == if k in Keys(p) then |p| else |p| + 1
  {
    if p == [] then [(k, v)]
    else if p[0].0 == k then
      assert Keys(p)[0] == k;
      [(k, v)] + p[1..]
    else
      assert Keys(p) == [p[0].0] + Keys(p[1..]);
      [p[0]] + Put(p[1..], k, v)
  }

  /** What a property assignment does: the key keeps its place or is appended, reading it
      gives the new value, and every other key reads as before. */
  lemma PutSemantics<V>(p: seq<(string, V)>, k: string, v: V)
    ensures Keys(Put(p, k, v)) == if k in Keys(p) then Keys(p) else Keys(p) + [k]
    ensures Lookup(Put(p, k, v), k) == Some(v)
    ensures forall k' :: k' != k ==> Lookup(Put(p, k, v), k') == Lookup(p, k')
  {
    PutKeys(p, k, v);
    PutLookup(p, k, v);
  }

  lemma {:induction false} PutKeys<V>(p: seq<(string, V)>, k: string, v: V)
    ensures k in Keys(p) ==> Keys(Put(p, k, v)) == Keys(p)
    ensures k !in Keys(p) ==> Keys(Put(p, k, v)) == Keys(p) + [k]
  {
    if p != [] {
      var tail := Keys(p[1..]);
      assert Keys(p) == [p[0].0] + tail;
      if p[0].0 == k {
        assert Keys([(k, v)] + p[1..]) == [k] + tail;
      } else {
        PutKeys(p[1..], k, v);
        var rest := Put(p[1..], k, v);
        assert Keys([p[0]] + rest) == [p[0].0] + Keys(rest);
        assert k in Keys(p) <==> k in tail;
      }
    }
  }

  lemma {:induction false} PutLookup<V>(p: seq<(string, V)>, k: string, v: V)
    ensures Lookup(Put(p, k, v), k) == Some(v)
    ensures forall k' :: k' != k ==> Lookup(Put(p, k, v), k') == Lookup(p, k')
  {
    if p != [] && p[0].0 != k {
      PutLookup(p[1..], k, v);
      var r := Put(p, k, v);
      assert r == [p[0]] + Put(p[1..], k, v);
      assert r[1..] == Put(p[1..], k, v);
    }
  }

  /** Assigning a property never creates a duplicate key. */
  lemma PutDistinct<V>(p: seq<(string, V)>, k: string, v: V)
    requires DistinctKeys(p)
    ensures DistinctKeys(Put(p, k, v))
  {
    PutSemantics(p, k, v);
    var ks := Keys(p);
    if k !in ks {
      assert forall i :: 0 <= i < |ks| ==> ks[i] != k;
    }
  }

  /** With distinct keys, reading the key at position `i` finds the value at position `i`. */
  lemma {:induction false} LookupAt<V>(p: seq<(string, V)>, i: nat)
    requires DistinctKeys(p) && i < |p|
    ensures Lookup(p, p[i].0) == Some(p[i].1)
  {
    if i > 0 {
      assert Keys(p)[0] == p[0].0 && Keys(p)[i] == p[i].0;
      assert Keys(p[1..]) == Keys(p)[1..];
      LookupAt(p[1..], i - 1);
    }
  }

  /** Assigning a key that is not yet present appends it. */
  lemma {:induction false} PutFresh<V>(p: seq<(string, V)>, k: string, v: V)
    requires k !in Keys(p)
    ensures Put(p, k, v) == p + [(k, v)]
  {
    if p != [] {
      assert Keys(p)[0] == p[0].0;
      assert Keys(p[1..]) == Keys(p)[1..];
      PutFresh(p[1..], k, v);
      calc {
        Put(p, k, v);
        [p[0]] + Put(p[1..], k, v);
        [p[0]] + (p[1..] + [(k, v)]);
        p + [(k, v)];
      }
    }
  }

  /** Dropping the last entry keeps keys distinct, and that entry's key is not among the rest. */
  lemma DistinctSnoc<V>(p: seq<(string, V)>)
    requires DistinctKeys(p) && p != []
    ensures DistinctKeys(p[..|p| - 1])
    ensures p[|p| - 1].0 !in Keys(p[..|p| - 1])
  {
    var n := |p| - 1;
    assert Keys(p[..n]) == Keys(p)[..n];
    assert forall j :: 0 <= j < n ==> Keys(p)[j] != Keys(p)[n];
  }

  /** Object spread `{...target, ...source}`: the properties of `source` assigned onto
      `target` one after another, in enumeration order. */
  function Assign<V>(target: seq<(string, V)>, source: seq<(string, V)>): seq<(string, V)>
    decreases |source|
  {
    if source == [] then target
    else Assign(Put(target, source[0].0, source[0].1), source[1..])
  }

  /** Spreading an object whose keys are all new appends its properties unchanged; in
      particular `{...p}` is a copy of `p` when `p`'s keys are distinct. */
  lemma {:induction false} AssignFresh<V>(target: seq<(string, V)>, source: seq<(string, V)>)
    requires Distinct(Keys(target) + Keys(source))
    ensures Assign(target, source) == target + source
    decreases |source|
  {
    if source != [] {
      var ks := Keys(target) + Keys(source);
      assert ks[|target|] == source[0].0;
      assert forall j :: 0 <= j < |target| ==> ks[j] == Keys(target)[j];
      assert source[0].0 !in Keys(target);
      PutFresh(target, source[0].0, source[0].1);
      var t' := target + [source[0]];
      assert Keys(t') + Keys(source[1..]) == ks;
      AssignFresh(t', source[1..]);
      assert t' + source[1..] == target + source;
    }
  }
}
