/**
 * The parts of the Iterable pack that differ from the first pack: the Channels,
 * Templates and Lists sync tables, and the Catalogs `getSchema`, whose properties come
 * from `deriveObjectSchemaProperties`. The Campaigns table and the rest of the Catalogs
 * table are in the `Campaigns` and `Catalogs` modules.
 */
module IterablePack {
  import opened Wrappers
  import opened JsObject
  import opened JsonValues
  import opened Schemas
  import opened Catalogs
  import IterableHelpers

  // ---------------------------------------------------------------------------
  // Channels
  // ---------------------------------------------------------------------------

  /** One element of `response.body.channels`. */
  datatype ChannelData = ChannelData(id: Json, name: Json, channelType: Json, messageMedium: Json)

  /** One row of the Channels table; `kind` is the row's `type` field. */
  datatype ChannelRow = ChannelRow(ID: Json, name: Json, kind: Json, messageMedium: Json)

  function ChannelToRow(c: ChannelData): ChannelRow
  {
    ChannelRow(c.id, c.name, c.channelType, c.messageMedium)
  }

  /** Reads a channel back from its row: the renaming loses nothing. */
  function RowToChannel(r: ChannelRow): ChannelData
  {
    ChannelData(r.ID, r.name, r.kind, r.messageMedium)
  }

  /** `SyncChannels`: one row per channel. */
  function SyncChannels(channels: seq<ChannelData>): seq<ChannelRow>
  {
    seq(|channels|, i requires 0 <= i < |channels| => ChannelToRow(channels[i]))
  }

  /** Row `i` is channel `i` renamed, so the channels can be read back from the table in
      the API's order. */
  lemma SyncChannelsRoundTrip(channels: seq<ChannelData>)
    ensures |SyncChannels(channels)| == |channels|
    ensures seq(|channels|, i requires 0 <= i < |channels| => RowToChannel(SyncChannels(channels)[i])) == channels
  {
  }

  // ---------------------------------------------------------------------------
  // Templates
  // ---------------------------------------------------------------------------

  /** One element of `response.body.templates`. */
  datatype TemplateData = TemplateData(
    templateId: Json, createdAt: Json, updatedAt: Json, name: Json, creatorUserId: Json, messageTypeId: Json)

  datatype TemplateRow = TemplateRow(
    templateId: Json, dateCreated: string, dateUpdated: string, name: Json, createdBy: Json, messageTypeId: Json)

  /** `dateString(x)` stands for `new Date(x).toString()`. */
  function TemplateToRow(t: TemplateData, dateString: Json -> string): TemplateRow
  {
    TemplateRow(t.templateId, dateString(t.createdAt), dateString(t.updatedAt), t.name, t.creatorUserId, t.messageTypeId)
  }

  /** `SyncTemplates`: one row per template. */
  function SyncTemplates(templates: seq<TemplateData>, dateString: Json -> string): seq<TemplateRow>
  {
    seq(|templates|, i requires 0 <= i < |templates| => TemplateToRow(templates[i], dateString))
  }

  /** Row `i` carries template `i`'s id, name, creator and message type unchanged and its
      two timestamps as date strings; syncing two runs of templates one after the other
      gives their rows one after the other. */
  lemma SyncTemplatesOrder(a: seq<TemplateData>, b: seq<TemplateData>, dateString: Json -> string)
    ensures |SyncTemplates(a, dateString)| == |a|
    ensures forall i :: 0 <= i < |a| ==>
              var r := SyncTemplates(a, dateString)[i];
              && r.templateId == a[i].templateId && r.name == a[i].name
              && r.createdBy == a[i].creatorUserId && r.messageTypeId == a[i].messageTypeId
              && r.dateCreated == dateString(a[i].createdAt) && r.dateUpdated == dateString(a[i].updatedAt)
    ensures SyncTemplates(a + b, dateString) == SyncTemplates(a, dateString) + SyncTemplates(b, dateString)
  {
  }

  // ---------------------------------------------------------------------------
  // Lists
  // ---------------------------------------------------------------------------

  /** One element of `response.body.lists`. */
  datatype ListData = ListData(id: Json, name: Json, createdAt: Json, listType: Json)

  /** One row of the Lists table; `kind` is the row's `type` field. */
  datatype ListRow = ListRow(ID: Json, name: Json, DateCreated: string, kind: Json)

  function ListToRow(l: ListData, dateString: Json -> string): ListRow
  {
    ListRow(l.id, l.name, dateString(l.createdAt), l.listType)
  }

  /** `SyncLists`: one row per list. */
  function SyncLists(lists: seq<ListData>, dateString: Json -> string): seq<ListRow>
  {
    seq(|lists|, i requires 0 <= i < |lists| => ListToRow(lists[i], dateString))
  }

  /** Row `i` carries list `i`'s id, name and type unchanged and its creation time as a
      date string; syncing two runs of lists one after the other gives their rows one
      after the other. */
  lemma SyncListsOrder(a: seq<ListData>, b: seq<ListData>, dateString: Json -> string)
    ensures |SyncLists(a, dateString)| == |a|
    ensures forall i :: 0 <= i < |a| ==>
              var r := SyncLists(a, dateString)[i];
              r.ID == a[i].id && r.name == a[i].name && r.kind == a[i].listType
              && r.DateCreated == dateString(a[i].createdAt)
    ensures SyncLists(a + b, dateString) == SyncLists(a, dateString) + SyncLists(b, dateString)
  {
  }

  // ---------------------------------------------------------------------------
  // Catalogs getSchema
  // ---------------------------------------------------------------------------

  /** `getSchema`, given the `value` of the catalog's first item. */
  function GetSchema(dynamicUrl: string, sample: Json): Result<CatalogSchema, JsError>
  {
    MakeCatalogSchema(dynamicUrl, sample, IterableHelpers.Derive(sample))
  }

  /** On a parsed sample the schema is built exactly when no `null` is reachable in it.
      Then its featured keys are the sample's keys and `dateModified`, its properties
      have the sample's keys in order with `itemId` and `dateModified` as strings
      (appended when the sample lacks them), and every other sample field's property
      describes that field's value. */
  lemma GetSchemaSpec(dynamicUrl: string, sample: Json)
    requires WellFormed(sample)
    ensures GetSchema(dynamicUrl, sample).Success? <==> NullFree(sample)
    ensures GetSchema(dynamicUrl, sample).Success? ==>
      var item := GetSchema(dynamicUrl, sample).value.items;
      var keys := ObjectKeys(sample).value;
      var es := Entries(sample).value;
      && item.featured == keys + [DateModifiedKey]
      && item.id == ItemIdKey && item.primary == ItemIdKey
      && item.identity == Identity("Entry", dynamicUrl)
      && Keys(item.properties) == keys + (if ItemIdKey in keys then [] else [ItemIdKey])
                                       + (if DateModifiedKey in keys then [] else [DateModifiedKey])
      && Lookup(item.properties, ItemIdKey) == Some(Primitive(String))
      && Lookup(item.properties, DateModifiedKey) == Some(Primitive(String))
      && forall i :: 0 <= i < |es| && es[i].0 != ItemIdKey && es[i].0 != DateModifiedKey ==>
           Lookup(item.properties, es[i].0).Some? &&
           IterableHelpers.Describes(Lookup(item.properties, es[i].0).value, es[i].1)
  {
    IterableHelpers.DeriveCorrect(sample);
    var d := IterableHelpers.Derive(sample);
    if d.Success? {
      SpreadDistinct(sample);
      MakeCatalogSchemaSpec(dynamicUrl, sample, d);
      var es := Entries(sample).value;
      var p := d.value;
      forall i | 0 <= i < |es| && es[i].0 != ItemIdKey && es[i].0 != DateModifiedKey
        ensures Lookup(p, es[i].0) == Some(p[i].1)
      {
        assert Keys(p)[i] == es[i].0;
        LookupAt(p, i);
      }
    } else {
      MakeCatalogSchemaSpec(dynamicUrl, sample, d);
    }
  }
}
