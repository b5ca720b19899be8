/**
 * The part of the first pack that differs from the Iterable pack: the Catalogs
 * `getSchema`, whose properties come from `generateObjectSchemaProperties`. The
 * Campaigns table and the rest of the Catalogs table are in the `Campaigns` and
 * `Catalogs` modules.
 */
module Pack {
  import opened Wrappers
  import opened JsObject
  import opened JsonValues
  import opened Schemas
  import opened Catalogs
  import Helpers
  import IterablePack
  import IterableHelpers

  /** `getSchema`, given the `value` of the catalog's first item. */
  function GetSchema(dynamicUrl: string, sample: Json): Result<CatalogSchema, JsError>
  {
    MakeCatalogSchema(dynamicUrl, sample, Helpers.Generate(sample))
  }

  /** The first pack's catalog schema is the Iterable pack's with the `featured` lists of
      the nested property schemas erased: same featured keys, id, identity and property
      keys; the two throw on the same samples. */
  lemma GetSchemaIsErased(dynamicUrl: string, sample: Json)
    ensures GetSchema(dynamicUrl, sample).Success? <==> IterablePack.GetSchema(dynamicUrl, sample).Success?
    ensures GetSchema(dynamicUrl, sample).Success? ==>
      var item := GetSchema(dynamicUrl, sample).value.items;
      var other := IterablePack.GetSchema(dynamicUrl, sample).value.items;
      item == other.(properties := EraseProps(other.properties))
  {
    Helpers.GenerateIsErasedDerive(sample);
    var d := IterableHelpers.Derive(sample);
    if GetSchema(dynamicUrl, sample).Success? {
      var p := d.value;
      EraseAssign([], p);
      assert EraseProps([]) == [];
      ErasePut(Assign([], p), ItemIdKey, Primitive(String));
      ErasePut(Put(Assign([], p), ItemIdKey, Primitive(String)), DateModifiedKey, Primitive(String));
    }
  }

  /** On a parsed sample the schema is built exactly when no `null` is reachable in it,
      and then no property schema carries a `featured` list. */
  lemma GetSchemaSpec(dynamicUrl: string, sample: Json)
    requires WellFormed(sample)
    ensures GetSchema(dynamicUrl, sample).Success? <==> NullFree(sample)
    ensures GetSchema(dynamicUrl, sample).Success? ==>
      var props := GetSchema(dynamicUrl, sample).value.items.properties;
      forall i :: 0 <= i < |props| ==> Unfeatured(props[i].1)
  {
    GetSchemaIsErased(dynamicUrl, sample);
    IterablePack.GetSchemaSpec(dynamicUrl, sample);
    if GetSchema(dynamicUrl, sample).Success? {
      var props := GetSchema(dynamicUrl, sample).value.items.properties;
      var other := IterablePack.GetSchema(dynamicUrl, sample).value.items.properties;
      forall i | 0 <= i < |props| ensures Unfeatured(props[i].1) {
        EraseUnfeatured(other[i].1);
      }
    }
  }
}
