/**
 * `generateObjectSchemaProperties` of the first pack: the same walk over a parsed JSON
 * object's entries as `deriveObjectSchemaProperties`, but nested object schemas carry no
 * `featured` list. Arrays are converted to index-keyed objects inside the recursive call.
 */
module Helpers {
  import opened Wrappers
  import opened JsObject
  import opened JsonValues
  import opened Schemas
  import IterableHelpers

  /** The schema the loop body records for a field whose value is `v`. */
  function GeneratedFieldSchema(v: Json): Result<Schema, JsError>
    decreases Depth(v), 0
  {
    match v
    case JString(_) => Success(Primitive(String))
    case JNumber(_) => Success(Primitive(Number))
    case JBigInt(_) => Success(Primitive(Number))
    case JBool(_) => Success(Primitive(Boolean))
    case JNull => Failure(NullToObject)
    case JArray(elems) =>
      EntriesShallower(v);
      var props :- GeneratedPropertiesOf(IndexEntries(elems));
      Success(ObjectSchema(props, None))
    case JObject(fields) =>
      EntriesShallower(v);
      var props :- GeneratedPropertiesOf(fields);
      Success(ObjectSchema(props, None))
  }

  /** The `result` object after the loop has visited the entries `es`, in order. */
  function GeneratedPropertiesOf(es: seq<(string, Json)>): Result<ObjectSchemaProperties, JsError>
    decreases EntriesDepth(es), 1, |es|
  {
    if es == [] then Success([])
    else
      EntriesDepthSnoc(es);
      var prefix :- GeneratedPropertiesOf(es[..|es| - 1]);
      var s :- GeneratedFieldSchema(es[|es| - 1].1);
      Success(Put(prefix, es[|es| - 1].0, s))
  }

  /** `generateObjectSchemaProperties(obj)`: `Object.entries(obj)`, then the loop. */
  function Generate(obj: Json): Result<ObjectSchemaProperties, JsError>
  {
    var es :- Entries(obj);
    GeneratedPropertiesOf(es)
  }

  method GenerateObjectSchemaProperties(obj: Json) returns (r: Result<ObjectSchemaProperties, JsError>)
    ensures r == Generate(obj)
    decreases Depth(obj)
  {
    var entries := Entries(obj);
    if entries.Failure? {
      return Failure(entries.error);
    }
    var es := entries.value;
    assert Generate(obj) == GeneratedPropertiesOf(es);
    EntriesShallower(obj);
    var result: ObjectSchemaProperties := [];
    for i := 0 to |es|
      invariant GeneratedPropertiesOf(es[..i]) == Success(result)
    {
      var (key, value) := es[i];
      var schema: Schema;
      if value.JString? {
        schema := Primitive(String);
      } else if value.JNumber? || value.JBigInt? {
        schema := Primitive(Number);
      } else if value.JBool? {
        schema := Primitive(Boolean);
      } else {
        // typeof value === "object": an array, an object or null
        ObjectBranch(value);
        var nested;
        if value.JArray? {
          ArrayAsObjectDepth(value.elems);
          nested := GenerateObjectSchemaProperties(JObject(IndexEntries(value.elems)));
        } else {
          nested := GenerateObjectSchemaProperties(value);
        }
        if nested.Failure? {
          FieldFailure(es, i);
          assert nested.error == NullToObject == GeneratedPropertiesOf(es).error;
          return Failure(nested.error);
        }
        schema := ObjectSchema(nested.value, None);
      }
      assert GeneratedFieldSchema(es[i].1) == Success(schema);
      Step(es, i, result, schema);
      result := Put(result, key, schema);
    }
    assert es[..|es|] == es;
    return Success(result);
  }

  /** The object branch of the loop body in terms of the recursive call it makes. */
  lemma ObjectBranch(v: Json)
    requires IsObjectTyped(v)
    ensures var u := if v.JArray? then JObject(IndexEntries(v.elems)) else v;
      && (GeneratedFieldSchema(v).Failure? <==> Generate(u).Failure?)
      && (GeneratedFieldSchema(v).Success? ==>
            GeneratedFieldSchema(v) == Success(ObjectSchema(Generate(u).value, None)))
  {
  }

  /** One turn of the loop: the entry at `i` adds its field schema to `result`. */
  lemma Step(es: seq<(string, Json)>, i: nat, result: ObjectSchemaProperties, s: Schema)
    requires i < |es|
    requires GeneratedPropertiesOf(es[..i]) == Success(result)
    requires GeneratedFieldSchema(es[i].1) == Success(s)
    ensures GeneratedPropertiesOf(es[..i + 1]) == Success(Put(result, es[i].0, s))
  {
    assert es[..i + 1][..i] == es[..i];
  }

  /** A field whose schema throws makes the whole loop throw. */
  lemma FieldFailure(es: seq<(string, Json)>, i: nat)
    requires i < |es|
    requires GeneratedFieldSchema(es[i].1).Failure?
    ensures GeneratedPropertiesOf(es).Failure?
  {
    assert es[..i + 1][..i] == es[..i];
    PrefixFailure(es, i + 1);
  }

  /** Once a prefix of the entries has thrown, the whole loop has thrown. */
  lemma {:induction false} PrefixFailure(es: seq<(string, Json)>, j: nat)
    requires j <= |es| && GeneratedPropertiesOf(es[..j]).Failure?
    ensures GeneratedPropertiesOf(es).Failure?
    decreases |es| - j
  {
    if j < |es| {
      assert es[..j + 1][..j] == es[..j];
      PrefixFailure(es, j + 1);
    } else {
      assert es[..j] == es;
    }
  }

  // ---------------------------------------------------------------------------
  // Agreement with deriveObjectSchemaProperties
  // ---------------------------------------------------------------------------

  /** A field gets the Iterable pack's schema with its `featured` lists erased, and the
      two throw on the same values. */
  lemma {:induction false} FieldErasure(v: Json)
    ensures GeneratedFieldSchema(v).Success? <==> IterableHelpers.FieldSchema(v).Success?
    ensures GeneratedFieldSchema(v).Success? ==>
              GeneratedFieldSchema(v).value == Erase(IterableHelpers.FieldSchema(v).value)
    decreases Depth(v), 0
  {
    match v
    case JArray(elems) =>
      EntriesShallower(v);
      PropertiesErasure(IndexEntries(elems));
    case JObject(fields) =>
      EntriesShallower(v);
      PropertiesErasure(fields);
    case _ =>
  }

  /** The loop builds the Iterable pack's properties with every `featured` list erased. */
  lemma {:induction false} PropertiesErasure(es: seq<(string, Json)>)
    ensures GeneratedPropertiesOf(es).Success? <==> IterableHelpers.PropertiesOf(es).Success?
    ensures GeneratedPropertiesOf(es).Success? ==>
              GeneratedPropertiesOf(es).value == EraseProps(IterableHelpers.PropertiesOf(es).value)
    decreases EntriesDepth(es), 1, |es|
  {
    if es != [] {
      var n := |es| - 1;
      EntriesDepthSnoc(es);
      PropertiesErasure(es[..n]);
      FieldErasure(es[n].1);
      IterableHelpers.PropertiesOfSnoc(es);
      if GeneratedPropertiesOf(es).Success? {
        ErasePut(IterableHelpers.PropertiesOf(es[..n]).value, es[n].0, IterableHelpers.FieldSchema(es[n].1).value);
      }
    }
  }

  /** `generateObjectSchemaProperties` equals `deriveObjectSchemaProperties` with every
      `featured` list erased, and both throw on the same inputs; so on parsed JSON it
      throws exactly when a `null` is reachable, and otherwise keeps `Object.keys(obj)` in
      order with no `featured` list anywhere. */
  lemma GenerateIsErasedDerive(obj: Json)
    ensures Generate(obj).Success? <==> IterableHelpers.Derive(obj).Success?
    ensures Generate(obj).Success? ==> Generate(obj).value == EraseProps(IterableHelpers.Derive(obj).value)
    ensures WellFormed(obj) ==> (Generate(obj).Success? <==> NullFree(obj))
    ensures WellFormed(obj) && Generate(obj).Success? ==>
              && Keys(Generate(obj).value) == ObjectKeys(obj).value
              && forall i :: 0 <= i < |Generate(obj).value| ==> Unfeatured(Generate(obj).value[i].1)
  {
    if !obj.JNull? {
      PropertiesErasure(Entries(obj).value);
    }
    if WellFormed(obj) {
      IterableHelpers.DeriveCorrect(obj);
    }
    if Generate(obj).Success? {
      var p := IterableHelpers.Derive(obj).value;
      forall i | 0 <= i < |p| ensures Unfeatured(EraseProps(p)[i].1) {
        EraseUnfeatured(p[i].1);
      }
    }
  }
}
