/**
 * The Catalogs dynamic sync table, written the same way in both packs: one table per
 * Iterable catalog, addressed by the catalog's API URL. The table's name and display URL
 * come from the URL's last `/`-separated segment, its schema from one sample item, and
 * its rows are the catalog items with `itemId` and `dateModified` added.
 */
module Catalogs {
  import opened Wrappers
  import opened JsObject
  import opened JsonValues
  import opened Schemas

  /** The prefix of every catalog's dynamic URL (before the catalog name). */
  const CatalogsApi := "https://api.iterable.com/api/catalogs"
  /** The prefix of every catalog's page in the Iterable app. */
  const CatalogsApp := "https://app.iterable.com/catalogs/table/"
  const ItemIdKey := "itemId"
  const DateModifiedKey := "dateModified"

  // ---------------------------------------------------------------------------
  // String.prototype.split("/")
  // ---------------------------------------------------------------------------

  /** `s.split("/")`: the pieces between slashes, empty pieces included; never empty. */
  function Split(s: string): (parts: seq<string>)
    ensures |parts| >= 1
  {
    if s == [] then [[]]
    else
      var rest := Split(s[1..]);
      if s[0] == '/' then [[]] + rest
      else [[s[0]] + rest[0]] + rest[1..]
  }

  /** `parts.join("/")`. */
  function Join(parts: seq<string>): string
    requires |parts| >= 1
    decreases |parts|
  {
    if |parts| == 1 then parts[0] else parts[0] + "/" + Join(parts[1..])
  }

  lemma {:induction false} JoinConsHead(c: char, parts: seq<string>)
    requires |parts| >= 1
    ensures Join([[c] + parts[0]] + parts[1..]) == [c] + Join(parts)
  {
    var q := [[c] + parts[0]] + parts[1..];
    assert q[1..] == parts[1..];
  }

  lemma {:induction false} JoinSnoc(parts: seq<string>, x: string)
    requires |parts| >= 1
    ensures Join(parts + [x]) == Join(parts) + "/" + x
    decreases |parts|
  {
    if |parts| > 1 {
      assert (parts + [x])[1..] == parts[1..] + [x];
      JoinSnoc(parts[1..], x);
    } else {
      assert (parts + [x])[1..] == [x];
    }
  }

  /** Splitting then joining gives back the string, and no piece holds a slash. */
  lemma {:induction false} SplitJoin(s: string)
    ensures Join(Split(s)) == s
    ensures forall i :: 0 <= i < |Split(s)| ==> '/' !in Split(s)[i]
  {
    if s != [] {
      var rest := Split(s[1..]);
      SplitJoin(s[1..]);
      if s[0] == '/' {
        assert ([[]] + rest)[1..] == rest;
        assert s == "/" + s[1..];
      } else {
        JoinConsHead(s[0], rest);
        assert s == [s[0]] + s[1..];
        var parts := Split(s);
        forall i | 0 <= i < |parts| ensures '/' !in parts[i] {
          if i > 0 {
            assert parts[i] == rest[i];
          }
        }
      }
    }
  }

  lemma {:induction false} SplitNoSlash(a: string)
    requires '/' !in a
    ensures Split(a) == [a]
  {
    if a != [] {
      SplitNoSlash(a[1..]);
      assert [a[0]] + a[1..] == a;
    }
  }

  lemma {:induction false} SplitSlash(a: string, t: string)
    requires '/' !in a
    ensures Split(a + "/" + t) == [a] + Split(t)
  {
    if a == [] {
      assert a + "/" + t == "/" + t;
      assert ("/" + t)[1..] == t;
    } else {
      var s := a + "/" + t;
      assert s[1..] == a[1..] + "/" + t;
      SplitSlash(a[1..], t);
      assert [a[0]] + a[1..] == a;
    }
  }

  /** Joining slash-free pieces then splitting gives back the pieces. */
  lemma {:induction false} JoinSplit(parts: seq<string>)
    requires |parts| >= 1
    requires forall i :: 0 <= i < |parts| ==> '/' !in parts[i]
    ensures Split(Join(parts)) == parts
    decreases |parts|
  {
    if |parts| == 1 {
      SplitNoSlash(parts[0]);
    } else {
      JoinSplit(parts[1..]);
      SplitSlash(parts[0], Join(parts[1..]));
    }
  }

  // ---------------------------------------------------------------------------
  // getName, getDisplayUrl, listDynamicUrls
  // ---------------------------------------------------------------------------

  /** `url.split("/").slice(-1)[0]`. */
  function LastSegment(url: string): string
  {
    var parts := Split(url);
    parts[|parts| - 1]
  }

  /** The last segment is the slash-free tail of the URL after its last slash (the whole
      URL when it has none). These three facts determine it. */
  lemma LastSegmentSpec(url: string)
    ensures '/' !in LastSegment(url)
    ensures |LastSegment(url)| <= |url| && url[|url| - |LastSegment(url)|..] == LastSegment(url)
    ensures |LastSegment(url)| < |url| ==> url[|url| - |LastSegment(url)| - 1] == '/'
  {
    var parts := Split(url);
    var n := |parts|;
    var last := parts[n - 1];
    SplitJoin(url);
    assert '/' !in last;
    if n > 1 {
      var init := parts[..n - 1];
      assert parts == init + [last];
      JoinSnoc(init, last);
      var head := Join(init) + "/";
      assert url == head + last;
      assert url[|head|..] == last;
      assert url[|head| - 1] == '/';
    } else {
      assert url == last;
    }
  }

  /** The last segment of `base + "/" + name` is `name` exactly when `name` has no slash. */
  lemma LastSegmentAfterSlash(base: string, name: string)
    ensures LastSegment(base + "/" + name) == name <==> '/' !in name
  {
    LastSegmentSpec(base + "/" + name);
    if '/' !in name {
      var parts := Split(base);
      SplitJoin(base);
      JoinSnoc(parts, name);
      JoinSplit(parts + [name]);
    }
  }

  /** `getName`: the table is named after the catalog in its URL. */
  function GetName(dynamicUrl: string): (name: string)
    ensures '/' !in name
    ensures |name| <= |dynamicUrl| && dynamicUrl[|dynamicUrl| - |name|..] == name
    ensures |name| < |dynamicUrl| ==> dynamicUrl[|dynamicUrl| - |name| - 1] == '/'
  {
    LastSegmentSpec(dynamicUrl);
    LastSegment(dynamicUrl)
  }

  /** `getDisplayUrl`: the catalog's page in the Iterable app. */
  function GetDisplayUrl(dynamicUrl: string): (r: string)
    ensures |r| == |CatalogsApp| + |GetName(dynamicUrl)|
    ensures r[..|CatalogsApp|] == CatalogsApp && r[|CatalogsApp|..] == GetName(dynamicUrl)
  {
    CatalogsApp + LastSegment(dynamicUrl)
  }

  datatype DynamicUrlOption = DynamicUrlOption(display: string, value: string)

  /** The URL `listDynamicUrls` builds for a catalog. */
  function CatalogUrl(name: string): string
  {
    CatalogsApi + "/" + name
  }

  /** `listDynamicUrls`: one choice per catalog name, in the API's order. */
  function ListDynamicUrls(catalogNames: seq<string>): seq<DynamicUrlOption>
  {
    seq(|catalogNames|, i requires 0 <= i < |catalogNames| =>
      DynamicUrlOption(catalogNames[i], CatalogUrl(catalogNames[i])))
  }

  /** Every listed catalog is shown under its own name, and the table built from its URL
      is named after it and links to its app page, exactly when the name has no slash. */
  lemma ListDynamicUrlsRoundTrip(catalogNames: seq<string>)
    ensures |ListDynamicUrls(catalogNames)| == |catalogNames|
    ensures forall i :: 0 <= i < |catalogNames| ==>
              && ListDynamicUrls(catalogNames)[i].display == catalogNames[i]
              && (GetName(ListDynamicUrls(catalogNames)[i].value) == catalogNames[i] <==> '/' !in catalogNames[i])
              && ('/' !in catalogNames[i] ==>
                    GetDisplayUrl(ListDynamicUrls(catalogNames)[i].value) == CatalogsApp + catalogNames[i])
  {
    forall i | 0 <= i < |catalogNames|
      ensures GetName(CatalogUrl(catalogNames[i])) == catalogNames[i] <==> '/' !in catalogNames[i]
    {
      LastSegmentAfterSlash(CatalogsApi, catalogNames[i]);
    }
  }

  // ---------------------------------------------------------------------------
  // `{...p, itemId: a, dateModified: b}`
  // ---------------------------------------------------------------------------

  /** The object literal shared by `getSchema` and the row mapper: spread `p`, then set
      `itemId` and `dateModified`. */
  function WithItemFields<V>(p: seq<(string, V)>, itemId: V, dateModified: V): seq<(string, V)>
  {
    Put(Put(Assign([], p), ItemIdKey, itemId), DateModifiedKey, dateModified)
  }

  /** The literal keeps `p`'s keys in order and appends `itemId` and `dateModified` when
      `p` lacks them; those two read as the given values, overriding `p`, and every other
      key reads as in `p`. */
  lemma WithItemFieldsSpec<V>(p: seq<(string, V)>, itemId: V, dateModified: V)
    requires DistinctKeys(p)
    ensures Keys(WithItemFields(p, itemId, dateModified))
              == Keys(p) + (if ItemIdKey in Keys(p) then [] else [ItemIdKey])
                         + (if DateModifiedKey in Keys(p) then [] else [DateModifiedKey])
    ensures DistinctKeys(WithItemFields(p, itemId, dateModified))
    ensures Lookup(WithItemFields(p, itemId, dateModified), ItemIdKey) == Some(itemId)
    ensures Lookup(WithItemFields(p, itemId, dateModified), DateModifiedKey) == Some(dateModified)
    ensures forall k :: k != ItemIdKey && k != DateModifiedKey ==>
              Lookup(WithItemFields(p, itemId, dateModified), k) == Lookup(p, k)
  {
    SpreadCopy(p);
    var q := Put(p, ItemIdKey, itemId);
    var r := Put(q, DateModifiedKey, dateModified);
    assert WithItemFields(p, itemId, dateModified) == r;
    PutKeys(p, ItemIdKey, itemId);
    PutKeys(q, DateModifiedKey, dateModified);
    var extra: seq<string> := if ItemIdKey in Keys(p) then [] else [ItemIdKey];
    assert Keys(q) == Keys(p) + extra;
    assert DateModifiedKey in Keys(q) <==> DateModifiedKey in Keys(p);
    PutLookup(p, ItemIdKey, itemId);
    PutLookup(q, DateModifiedKey, dateModified);
    PutDistinct(p, ItemIdKey, itemId);
    PutDistinct(q, DateModifiedKey, dateModified);
  }

  /** `{...p}` copies a distinct-keyed `p` unchanged. */
  lemma SpreadCopy<V>(p: seq<(string, V)>)
    requires DistinctKeys(p)
    ensures Assign([], p) == p
  {
    assert Keys<V>([]) + Keys(p) == Keys(p);
    AssignFresh([], p);
    assert [] + p == p;
  }

  // ---------------------------------------------------------------------------
  // SyncCatalog rows
  // ---------------------------------------------------------------------------

  /** One element of `response.body.params.catalogItemsWithProperties`. */
  datatype CatalogItem = CatalogItem(itemId: Json, lastModified: Json, value: Json)

  /** The properties `...v` copies into an object literal: none for `null`, a number or a
      boolean, the index-keyed characters of a string or elements of an array, the fields
      of an object. */
  function SpreadEntries(v: Json): seq<(string, Json)>
  {
    if v.JNull? then [] else Entries(v).value
  }

  /** Spreading a parsed JSON value copies distinct keys. */
  lemma SpreadDistinct(v: Json)
    requires WellFormed(v)
    ensures DistinctKeys(SpreadEntries(v))
  {
    if v.JString? {
      IndexKeysDistinct(|v.s|);
    }
  }

  /** The `map` callback of `SyncCatalog`; `dateString(x)` stands for
      `new Date(x).toString()`. */
  function CatalogRow(item: CatalogItem, dateString: Json -> string): Json
  {
    JObject(WithItemFields(SpreadEntries(item.value), item.itemId, JString(dateString(item.lastModified))))
  }

  /** A row has the item's own fields in order, `itemId` and `dateModified` overriding
      same-named fields or appended after them, and every other field unchanged. */
  lemma CatalogRowSpec(item: CatalogItem, dateString: Json -> string)
    requires WellFormed(item.value)
    ensures var row := CatalogRow(item, dateString).fields;
      var own := SpreadEntries(item.value);
      && Keys(row) == Keys(own) + (if ItemIdKey in Keys(own) then [] else [ItemIdKey])
                                + (if DateModifiedKey in Keys(own) then [] else [DateModifiedKey])
      && DistinctKeys(row)
      && Lookup(row, ItemIdKey) == Some(item.itemId)
      && Lookup(row, DateModifiedKey) == Some(JString(dateString(item.lastModified)))
      && forall k :: k != ItemIdKey && k != DateModifiedKey ==> Lookup(row, k) == Lookup(own, k)
  {
    SpreadDistinct(item.value);
    WithItemFieldsSpec(SpreadEntries(item.value), item.itemId, JString(dateString(item.lastModified)));
  }

  /** `SyncCatalog`: one row per item. */
  function SyncCatalog(items: seq<CatalogItem>, dateString: Json -> string): seq<Json>
  {
    seq(|items|, i requires 0 <= i < |items| => CatalogRow(items[i], dateString))
  }

  /** The mapper keeps length and order: row `i` is item `i`'s row, and syncing two runs
      of items one after the other gives their rows one after the other. */
  lemma SyncCatalogOrder(a: seq<CatalogItem>, b: seq<CatalogItem>, dateString: Json -> string)
    ensures |SyncCatalog(a, dateString)| == |a|
    ensures forall i :: 0 <= i < |a| ==> SyncCatalog(a, dateString)[i] == CatalogRow(a[i], dateString)
    ensures SyncCatalog(a + b, dateString) == SyncCatalog(a, dateString) + SyncCatalog(b, dateString)
  {
  }

  // ---------------------------------------------------------------------------
  // getSchema
  // ---------------------------------------------------------------------------

  datatype Identity = Identity(name: string, dynamicUrl: string)

  /** `coda.makeObjectSchema({...})` for one catalog item. */
  datatype ItemSchema = ItemSchema(
    properties: ObjectSchemaProperties,
    id: string,
    primary: string,
    featured: seq<string>,
    identity: Identity)

  /** `coda.makeSchema({type: coda.ValueType.Array, items})`. */
  datatype CatalogSchema = ArraySchema(items: ItemSchema)

  /** The body of `getSchema` once the sample item's `value` is known, given what the
      pack's inferencer returns for it: `Object.keys(sample)` and the inferencer both
      throw on `null`. */
  function MakeCatalogSchema(dynamicUrl: string, sample: Json, inferred: Result<ObjectSchemaProperties, JsError>)
    : Result<CatalogSchema, JsError>
  {
    var keys :- ObjectKeys(sample);
    var props :- inferred;
    Success(ArraySchema(ItemSchema(
      WithItemFields(props, Primitive(String), Primitive(String)),
      ItemIdKey, ItemIdKey, keys + [DateModifiedKey], Identity("Entry", dynamicUrl))))
  }

  /** The schema lists the sample's keys then `dateModified` as featured, is keyed and
      titled by `itemId`, identifies as `Entry` at the catalog URL, and has the inferred
      properties with `itemId` and `dateModified` as strings; it throws exactly when the
      sample is `null` or inference throws. */
  lemma MakeCatalogSchemaSpec(dynamicUrl: string, sample: Json, inferred: Result<ObjectSchemaProperties, JsError>)
    requires inferred.Success? ==> DistinctKeys(inferred.value)
    ensures var r := MakeCatalogSchema(dynamicUrl, sample, inferred);
      && (r.Success? <==> !sample.JNull? && inferred.Success?)
      && (r.Success? ==>
            var item := r.value.items;
            var p := inferred.value;
            && item.featured == ObjectKeys(sample).value + [DateModifiedKey]
            && item.id == ItemIdKey && item.primary == ItemIdKey
            && item.identity == Identity("Entry", dynamicUrl)
            && Keys(item.properties) == Keys(p) + (if ItemIdKey in Keys(p) then [] else [ItemIdKey])
                                                + (if DateModifiedKey in Keys(p) then [] else [DateModifiedKey])
            && DistinctKeys(item.properties)
            && Lookup(item.properties, ItemIdKey) == Some(Primitive(String))
            && Lookup(item.properties, DateModifiedKey) == Some(Primitive(String))
            && forall k :: k != ItemIdKey && k != DateModifiedKey ==> Lookup(item.properties, k) == Lookup(p, k))
  {
    if inferred.Success? {
      WithItemFieldsSpec(inferred.value, Primitive(String), Primitive(String));
    }
  }

  /** `featured` is not de-duplicated: a sample that already has a `dateModified` field
      lists it twice. */
  lemma FeaturedRepeatsDateModified(dynamicUrl: string, sample: Json, inferred: Result<ObjectSchemaProperties, JsError>)
    requires MakeCatalogSchema(dynamicUrl, sample, inferred).Success?
    requires DateModifiedKey in ObjectKeys(sample).value
    ensures var f := MakeCatalogSchema(dynamicUrl, sample, inferred).value.items.featured;
      exists i, j :: 0 <= i < j < |f| && f[i] == DateModifiedKey && f[j] == DateModifiedKey
  {
    var keys := ObjectKeys(sample).value;
    var f := MakeCatalogSchema(dynamicUrl, sample, inferred).value.items.featured;
    var i :| 0 <= i < |keys| && keys[i] == DateModifiedKey;
    assert f[i] == DateModifiedKey && f[|keys|] == DateModifiedKey;
  }
}
