/**
 * The schema descriptions the inferencers build. The host SDK's `makeObjectSchema`
 * is taken as a plain constructor and its `ValueType` as an enumeration.
 */
module Schemas {
  import opened Wrappers
  import opened JsObject
  import JsonValues

  /** The value types the inferencers assign to leaves. */
  datatype ValueType = String | Number | Boolean

  /** `{type: ValueType.X}` for a leaf, or `makeObjectSchema({properties, featured?})`.
      `featured` is `None` when the object literal has no `featured` member. */
  datatype Schema =
    | Primitive(kind: ValueType)
    | ObjectSchema(properties: seq<(string, Schema)>, featured: Option<seq<string>>)

  /** `coda.ObjectSchemaProperties`: field name to schema, in insertion order. */
  type ObjectSchemaProperties = seq<(string, Schema)>

  /** Nesting depth of object schemas: 0 for a leaf. */
  function SchemaDepth(s: Schema): nat
  {
    match s
    case Primitive(_) => 0
    case ObjectSchema(props, _) =>
      1 + JsonValues.MaxOf(seq(|props|, i requires 0 <= i < |props| => SchemaDepth(props[i].1)))
  }

  /** The same schema with every `featured` list dropped, at every level. */
  function Erase(s: Schema): Schema
  {
    match s
    case Primitive(k) => Primitive(k)
    case ObjectSchema(props, _) =>
      ObjectSchema(seq(|props|, i requires 0 <= i < |props| => (props[i].0, Erase(props[i].1))), None)
  }

  /** `Erase` applied to every property. */
  function EraseProps(p: ObjectSchemaProperties): ObjectSchemaProperties
  {
    seq(|p|, i requires 0 <= i < |p| => (p[i].0, Erase(p[i].1)))
  }

  lemma EraseCons(x: (string, Schema), q: ObjectSchemaProperties)
    ensures EraseProps([x] + q) == [(x.0, Erase(x.1))] + EraseProps(q)
  {
  }

  /** Erasing and assigning a property commute. */
  lemma {:induction false} ErasePut(p: ObjectSchemaProperties, k: string, s: Schema)
    ensures EraseProps(Put(p, k, s)) == Put(EraseProps(p), k, Erase(s))
  {
    if p == [] {
    } else {
      var q := EraseProps(p);
      EraseCons(p[0], p[1..]);
      assert p == [p[0]] + p[1..];
      assert q[0].0 == p[0].0 && q[1..] == EraseProps(p[1..]);
      if p[0].0 == k {
        EraseCons((k, s), p[1..]);
      } else {
        ErasePut(p[1..], k, s);
        EraseCons(p[0], Put(p[1..], k, s));
      }
    }
  }

  /** Erasing commutes with object spread. */
  lemma {:induction false} EraseAssign(t: ObjectSchemaProperties, s: ObjectSchemaProperties)
    ensures EraseProps(Assign(t, s)) == Assign(EraseProps(t), EraseProps(s))
    decreases |s|
  {
    if s != [] {
      ErasePut(t, s[0].0, s[0].1);
      EraseAssign(Put(t, s[0].0, s[0].1), s[1..]);
      assert s == [s[0]] + s[1..];
      EraseCons(s[0], s[1..]);
    }
  }

  /** No object schema anywhere in `s` carries a `featured` list. */
  predicate Unfeatured(s: Schema)
  {
    match s
    case Primitive(_) => true
    case ObjectSchema(props, featured) =>
      featured.None? && forall i :: 0 <= i < |props| ==> Unfeatured(props[i].1)
  }

  /** Erasing leaves no `featured` list and keeps the property keys. */
  lemma {:induction false} EraseUnfeatured(s: Schema)
    ensures Unfeatured(Erase(s))
    ensures s.ObjectSchema? ==> Erase(s).ObjectSchema? && Keys(Erase(s).properties) == Keys(s.properties)
  {
    match s
    case Primitive(_) =>
    case ObjectSchema(props, _) =>
      forall i | 0 <= i < |props| ensures Unfeatured(Erase(props[i].1)) {
        EraseUnfeatured(props[i].1);
      }
  }
}
