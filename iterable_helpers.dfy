/**
 * `deriveObjectSchemaProperties` of the Iterable pack: walks a parsed JSON object's
 * entries in enumeration order and records one schema per field. Strings, numbers
 * (and bigints) and booleans get a leaf schema; arrays and objects get a nested object
 * schema built by recursion, together with a `featured` list of the nested value's keys.
 * Arrays are first turned into objects keyed "0".."n-1". A `null` field takes the
 * object branch (`typeof null === "object"`), and the recursive call then throws in
 * `Object.entries(null)`.
 *
 * The recursive functions below are the specification; the method is the loop of the
 * source proved against them.
 */
module IterableHelpers {
  import opened Wrappers
  import opened JsObject
  import opened JsonValues
  import opened Schemas

  /** The schema the loop body records for a field whose value is `v`. */
  function FieldSchema(v: Json): Result<Schema, JsError>
    decreases Depth(v), 0
  {
    match v
    case JString(_) => Success(Primitive(String))
    case JNumber(_) => Success(Primitive(Number))
    case JBigInt(_) => Success(Primitive(Number))
    case JBool(_) => Success(Primitive(Boolean))
    case JNull => Failure(NullToObject)
    case JArray(elems) =>
      EntriesShallower(v);
      var es := IndexEntries(elems);
      var props :- PropertiesOf(es);
      Success(ObjectSchema(props, Some(Keys(es))))
    case JObject(fields) =>
      EntriesShallower(v);
      var props :- PropertiesOf(fields);
      Success(ObjectSchema(props, Some(Keys(fields))))
  }

  /** The `result` object after the loop has visited the entries `es`, in order. */
  function PropertiesOf(es: seq<(string, Json)>): Result<ObjectSchemaProperties, JsError>
    decreases EntriesDepth(es), 1, |es|
  {
    if es == [] then Success([])
    else
      EntriesDepthSnoc(es);
      var prefix :- PropertiesOf(es[..|es| - 1]);
      var s :- FieldSchema(es[|es| - 1].1);
      Success(Put(prefix, es[|es| - 1].0, s))
  }

  /** `deriveObjectSchemaProperties(obj)`: `Object.entries(obj)`, then the loop. */
  function Derive(obj: Json): Result<ObjectSchemaProperties, JsError>
  {
    var es :- Entries(obj);
    PropertiesOf(es)
  }

  method DeriveObjectSchemaProperties(obj: Json) returns (r: Result<ObjectSchemaProperties, JsError>)
    ensures r == Derive(obj)
    decreases Depth(obj)
  {
    var entries := Entries(obj);
    if entries.Failure? {
      return Failure(entries.error);
    }
    var es := entries.value;
    assert Derive(obj) == PropertiesOf(es);
    EntriesShallower(obj);
    var result: ObjectSchemaProperties := [];
    for i := 0 to |es|
      invariant PropertiesOf(es[..i]) == Success(result)
    {
      var (key, value) := es[i];
      var schema: Schema;
      if value.JString? {
        schema := Primitive(String);
      } else if value.JNumber? || value.JBigInt? {
        schema := Primitive(Number);
      } else if value.JBool? {
        schema := Primitive(Boolean);
      } else {
        // typeof value === "object": an array, an object or null
        ObjectBranch(value);
        if value.JArray? {
          ArrayAsObjectDepth(value.elems);
          value := JObject(IndexEntries(value.elems));
        }
        var nested := DeriveObjectSchemaProperties(value);
        if nested.Failure? {
          FieldFailure(es, i);
          assert nested.error == NullToObject == PropertiesOf(es).error;
          return Failure(nested.error);
        }
        schema := ObjectSchema(nested.value, Some(Keys(value.fields)));
      }
      assert FieldSchema(es[i].1) == Success(schema);
      Step(es, i, result, schema);
      result := Put(result, key, schema);
    }
    assert es[..|es|] == es;
    return Success(result);
  }

  /** The `typeof value === "object"` branch of the loop body in terms of the recursive
      call it makes: on the value itself, or on the array converted to an index-keyed object. */
  lemma ObjectBranch(v: Json)
    requires IsObjectTyped(v)
    ensures var u := if v.JArray? then JObject(IndexEntries(v.elems)) else v;
      && (FieldSchema(v).Failure? <==> Derive(u).Failure?)
      && (FieldSchema(v).Success? ==>
            u.JObject? && FieldSchema(v) == Success(ObjectSchema(Derive(u).value, Some(Keys(u.fields)))))
  {
  }

  /** One turn of the loop: the entry at `i` adds its field schema to `result`. */
  lemma Step(es: seq<(string, Json)>, i: nat, result: ObjectSchemaProperties, s: Schema)
    requires i < |es|
    requires PropertiesOf(es[..i]) == Success(result)
    requires FieldSchema(es[i].1) == Success(s)
    ensures PropertiesOf(es[..i + 1]) == Success(Put(result, es[i].0, s))
  {
    assert es[..i + 1][..i] == es[..i];
  }

  /** A field whose schema throws makes the whole loop throw. */
  lemma FieldFailure(es: seq<(string, Json)>, i: nat)
    requires i < |es|
    requires FieldSchema(es[i].1).Failure?
    ensures PropertiesOf(es).Failure?
  {
    assert es[..i + 1][..i] == es[..i];
    PrefixFailure(es, i + 1);
  }

  /** Once a prefix of the entries has thrown, the whole loop has thrown. */
  lemma {:induction false} PrefixFailure(es: seq<(string, Json)>, j: nat)
    requires j <= |es| && PropertiesOf(es[..j]).Failure?
    ensures PropertiesOf(es).Failure?
    decreases |es| - j
  {
    if j < |es| {
      assert es[..j + 1][..j] == es[..j];
      PrefixFailure(es, j + 1);
    } else {
      assert es[..j] == es;
    }
  }

  // ---------------------------------------------------------------------------
  // What the inferred schema means
  // ---------------------------------------------------------------------------

  /** The schema `s` describes the value `v`, stated declaratively: strings are
      `String`, numbers and bigints `Number`, booleans `Boolean`; an object is an object
      schema with the object's keys in order, each describing its value, featuring those
      keys; an array is the same with keys "0".."n-1"; nothing describes `null`. */
  predicate Describes(s: Schema, v: Json)
  {
    match v
    case JNull => false
    case JBool(_) => s == Primitive(Boolean)
    case JNumber(_) => s == Primitive(Number)
    case JBigInt(_) => s == Primitive(Number)
    case JString(_) => s == Primitive(String)
    case JArray(elems) =>
      && s.ObjectSchema?
      && s.featured == Some(IndexKeys(|elems|))
      && |s.properties| == |elems|
      && forall i :: 0 <= i < |elems| ==>
           s.properties[i].0 == IndexKey(i) && Describes(s.properties[i].1, elems[i])
    case JObject(fields) =>
      && s.ObjectSchema?
      && s.featured == Some(Keys(fields))
      && |s.properties| == |fields|
      && forall i :: 0 <= i < |fields| ==>
           s.properties[i].0 == fields[i].0 && Describes(s.properties[i].1, fields[i].1)
  }

  /** The loop throws exactly when the schema of some entry throws. */
  lemma {:induction false} PropertiesOfFails(es: seq<(string, Json)>)
    ensures PropertiesOf(es).Success? <==> forall i :: 0 <= i < |es| ==> FieldSchema(es[i].1).Success?
    decreases |es|
  {
    if es != [] {
      var n := |es| - 1;
      var init := es[..n];
      PropertiesOfFails(init);
      if PropertiesOf(init).Failure? {
        var j :| 0 <= j < n && FieldSchema(init[j].1).Failure?;
        assert FieldSchema(es[j].1).Failure?;
      } else if FieldSchema(es[n].1).Success? {
        forall i | 0 <= i < |es| ensures FieldSchema(es[i].1).Success? {
          if i < n {
            assert init[i] == es[i];
          }
        }
      }
    }
  }

  /** Unfolds the loop's last turn. */
  lemma PropertiesOfSnoc(es: seq<(string, Json)>)
    requires es != []
    ensures var n := |es| - 1;
      PropertiesOf(es).Success? <==> PropertiesOf(es[..n]).Success? && FieldSchema(es[n].1).Success?
    ensures var n := |es| - 1;
      PropertiesOf(es).Success? ==>
        PropertiesOf(es).value == Put(PropertiesOf(es[..n]).value, es[n].0, FieldSchema(es[n].1).value)
  {
  }

  /** For distinct keys, the loop records one schema per entry. */
  lemma {:induction false} PropertiesOfLength(es: seq<(string, Json)>)
    requires DistinctKeys(es)
    requires PropertiesOf(es).Success?
    ensures Keys(PropertiesOf(es).value) == Keys(es)
    decreases |es|
  {
    if es != [] {
      var n := |es| - 1;
      var init := es[..n];
      DistinctSnoc(es);
      PropertiesOfSnoc(es);
      PropertiesOfLength(init);
      assert Keys(init) + [es[n].0] == Keys(es);
      PutFresh(PropertiesOf(init).value, es[n].0, FieldSchema(es[n].1).value);
    }
  }

  /** For distinct keys, the entry at position `i` records its schema at position `i`. */
  lemma {:induction false} PropertiesOfAt(es: seq<(string, Json)>, i: nat)
    requires DistinctKeys(es)
    requires PropertiesOf(es).Success?
    requires i < |es|
    ensures |PropertiesOf(es).value| == |es|
    ensures FieldSchema(es[i].1).Success?
    ensures PropertiesOf(es).value[i] == (es[i].0, FieldSchema(es[i].1).value)
    decreases |es|
  {
    var n := |es| - 1;
    var init := es[..n];
    DistinctSnoc(es);
    PropertiesOfSnoc(es);
    PropertiesOfLength(init);
    var p := PropertiesOf(init).value;
    var s := FieldSchema(es[n].1).value;
    PutFresh(p, es[n].0, s);
    var r := PropertiesOf(es).value;
    assert r == p + [(es[n].0, s)];
    assert |p| == n by {
      assert |Keys(p)| == |Keys(init)|;
    }
    if i < n {
      PropertiesOfAt(init, i);
      assert init[i] == es[i];
      assert r[i] == p[i];
    }
  }

  /** For distinct keys, the loop records exactly one schema per entry, in entry order. */
  lemma PropertiesOfPointwise(es: seq<(string, Json)>)
    requires DistinctKeys(es)
    requires PropertiesOf(es).Success?
    ensures |PropertiesOf(es).value| == |es|
    ensures forall i :: 0 <= i < |es| ==>
              FieldSchema(es[i].1).Success? && PropertiesOf(es).value[i] == (es[i].0, FieldSchema(es[i].1).value)
  {
    PropertiesOfLength(es);
    forall i | 0 <= i < |es|
      ensures FieldSchema(es[i].1).Success? && PropertiesOf(es).value[i] == (es[i].0, FieldSchema(es[i].1).value)
    {
      PropertiesOfAt(es, i);
    }
  }

  /** The schema of a field value: it exists exactly when no `null` is reachable, and
      then it describes the value. */
  lemma {:induction false} FieldSchemaDescribes(v: Json)
    requires WellFormed(v)
    ensures FieldSchema(v).Success? <==> NullFree(v)
    ensures FieldSchema(v).Success? ==> Describes(FieldSchema(v).value, v)
    decreases v
  {
    match v
    case JArray(elems) =>
      var es := IndexEntries(elems);
      forall i | 0 <= i < |elems|
        ensures (FieldSchema(elems[i]).Success? <==> NullFree(elems[i]))
        ensures FieldSchema(elems[i]).Success? ==> Describes(FieldSchema(elems[i]).value, elems[i])
      {
        FieldSchemaDescribes(elems[i]);
      }
      assert forall i :: 0 <= i < |es| ==> es[i].1 == elems[i];
      PropertiesOfFails(es);
      if PropertiesOf(es).Success? {
        PropertiesOfPointwise(es);
      }
    case JObject(fields) =>
      forall i | 0 <= i < |fields|
        ensures (FieldSchema(fields[i].1).Success? <==> NullFree(fields[i].1))
        ensures FieldSchema(fields[i].1).Success? ==> Describes(FieldSchema(fields[i].1).value, fields[i].1)
      {
        FieldSchemaDescribes(fields[i].1);
      }
      PropertiesOfFails(fields);
      if PropertiesOf(fields).Success? {
        PropertiesOfPointwise(fields);
      }
    case _ =>
  }

  /** A value has at most one describing schema, and the inferencer computes it. */
  lemma {:induction false} DescribesExactly(s: Schema, v: Json)
    requires WellFormed(v)
    ensures Describes(s, v) <==> FieldSchema(v) == Success(s)
    decreases v
  {
    FieldSchemaDescribes(v);
    if Describes(s, v) {
      match v
      case JArray(elems) =>
        var es := IndexEntries(elems);
        forall i | 0 <= i < |elems|
          ensures FieldSchema(elems[i]) == Success(s.properties[i].1)
        {
          DescribesExactly(s.properties[i].1, elems[i]);
        }
        PropertiesOfFails(es);
        PropertiesOfPointwise(es);
        assert PropertiesOf(es).value == s.properties;
      case JObject(fields) =>
        forall i | 0 <= i < |fields|
          ensures FieldSchema(fields[i].1) == Success(s.properties[i].1)
        {
          DescribesExactly(s.properties[i].1, fields[i].1);
        }
        PropertiesOfFails(fields);
        PropertiesOfPointwise(fields);
        assert PropertiesOf(fields).value == s.properties;
      case _ =>
    }
  }

  /** `deriveObjectSchemaProperties(obj)` on a parsed value: it throws exactly when a
      `null` is reachable (the argument itself included); otherwise its keys are
      `Object.keys(obj)`, in order, and each property describes the matching entry. */
  lemma DeriveCorrect(obj: Json)
    requires WellFormed(obj)
    ensures Derive(obj).Success? <==> NullFree(obj)
    ensures Derive(obj).Success? ==>
              && Keys(Derive(obj).value) == ObjectKeys(obj).value
              && forall i :: 0 <= i < |Entries(obj).value| ==>
                   Describes(Derive(obj).value[i].1, Entries(obj).value[i].1)
  {
    if !obj.JNull? {
      var es := Entries(obj).value;
      if obj.JArray? || obj.JObject? {
        FieldSchemaDescribes(obj);
        ObjectBranch(obj);
        if obj.JArray? {
          assert PropertiesOf(es) == Derive(JObject(IndexEntries(obj.elems)));
        }
      } else {
        assert DistinctKeys(es) by {
          if obj.JString? {
            IndexKeysDistinct(|obj.s|);
          }
        }
        PropertiesOfFails(es);
      }
      if Derive(obj).Success? {
        PropertiesOfPointwise(es);
        var p := Derive(obj).value;
        assert Keys(p) == Keys(es);
      }
    }
  }

  /** The schema tree mirrors the value's nesting: both have the same depth. */
  lemma {:induction false} DescribesDepth(s: Schema, v: Json)
    requires Describes(s, v)
    ensures SchemaDepth(s) == Depth(v)
    decreases v
  {
    match v
    case JArray(elems) =>
      var p := s.properties;
      forall i | 0 <= i < |elems| ensures SchemaDepth(p[i].1) == Depth(elems[i]) {
        DescribesDepth(p[i].1, elems[i]);
      }
      assert seq(|p|, i requires 0 <= i < |p| => SchemaDepth(p[i].1))
          == seq(|elems|, i requires 0 <= i < |elems| => Depth(elems[i]));
    case JObject(fields) =>
      var p := s.properties;
      forall i | 0 <= i < |fields| ensures SchemaDepth(p[i].1) == Depth(fields[i].1) {
        DescribesDepth(p[i].1, fields[i].1);
      }
      assert seq(|p|, i requires 0 <= i < |p| => SchemaDepth(p[i].1))
          == seq(|fields|, i requires 0 <= i < |fields| => Depth(fields[i].1));
    case _ =>
  }

  /** Arrays get no element type: two null-free arrays of different lengths get
      different schemas, whatever their elements. */
  lemma ArrayLengthShapesSchema(a: seq<Json>, b: seq<Json>)
    requires WellFormed(JArray(a)) && NullFree(JArray(a))
    requires WellFormed(JArray(b)) && NullFree(JArray(b))
    requires |a| != |b|
    ensures FieldSchema(JArray(a)).Success? && FieldSchema(JArray(b)).Success?
    ensures FieldSchema(JArray(a)) != FieldSchema(JArray(b))
  {
    FieldSchemaDescribes(JArray(a));
    FieldSchemaDescribes(JArray(b));
  }
}
