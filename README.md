# Iterable Coda packs: schema inference and sync-table logic

This project models the logic of two Coda packs that sync data from the Iterable
marketing API, and proves properties of that logic.

**The JSON-to-schema inferencer.** It exists in two versions:

- `deriveObjectSchemaProperties` in `Iterable/helpers.ts` records a `featured` key list on nested schemas;
- `generateObjectSchemaProperties` in `helpers.ts` does not.

Each walks the entries of a parsed JSON value (`Object.entries`) in order and builds a
properties object by property assignment:

- a string gets a `String` schema;
- a number or bigint gets a `Number` schema;
- a boolean gets a `Boolean` schema;
- an object gets a nested object schema from a recursive call;
- an array is first turned into an object keyed `"0".."n-1"`, then handled like an object.

`null` takes the object branch (`typeof null === "object"`), and `Object.entries(null)`
throws. The model therefore returns an explicit `Failure(NullToObject)` wherever a `null`
is reachable.

**The pure logic of the two packs:**

- the Campaigns table: a field-renaming map, then a filter on the campaign name;
- the Channels, Templates and Lists tables of the Iterable pack;
- the Catalogs dynamic table: `listDynamicUrls`, `getName`, `getDisplayUrl`, `getSchema`
  (inferred properties merged with `itemId`/`dateModified`) and the item-row mapper.

**Modules:**

- `JsObject`: a JavaScript object as an insertion-ordered list of key/value pairs.
  - `Put` is property assignment: an existing key keeps its place, a new key is appended.
  - `Assign` is object spread.
- `JsonValues`: parsed JSON, `Object.entries`/`Object.keys`, the index keys of arrays,
  and the depth measure that makes the mutual recursion terminate.
- `Schemas`: Coda's `ValueType` and object schemas, and erasure of `featured` lists.
- `IterableHelpers` and `Helpers`: the two inferencers. Each has:
  - a recursive specification function (`Derive`, `Generate`);
  - the source's loop as a `method` proved equal to that function;
  - lemmas about what the function computes.
- `Campaigns`, `Catalogs`: logic written identically in both pack files.
- `IterablePack`, `Pack`: what differs between the two pack files.

Both inferencers throw on any reachable `null` (`Object.entries(null)`). Arrays only
become index-keyed objects and never get an element type.

## Model

| member | source | states |
|---|---|---|
| JsObject.PutSemantics | Iterable/helpers.ts:16 | Assigning `result[key]` keeps an existing key's position or appends a new key; reading the key gives the new value; every other key reads as before |
| JsObject.AssignFresh | Iterable/pack.ts:187 | Spreading an object whose keys are all new appends its properties in order; `{...p}` copies a distinct-keyed `p` unchanged |
| JsonValues.Entries | Iterable/helpers.ts:14 | `Object.entries` throws exactly on `null`. It gives an object's fields, an array's elements under keys `"0".."n-1"`, a string's characters under index keys, and nothing for numbers, bigints and booleans |
| JsonValues.IndexEntries | Iterable/helpers.ts:23 | `Object.fromEntries(value.entries())` holds element i under key `IndexKey(i)`; the keys are `"0".."n-1"` in order, and they are distinct |
| JsonValues.DecimalValueOfIndexKey | Iterable/helpers.ts:23 | The index key of i is i written in decimal: reading it back gives i |
| JsonValues.EntriesShallower | Iterable/helpers.ts:24-32 | Every entry of a non-null value is shallower than an array or object it came from, so the recursion terminates on structural size |
| IterableHelpers.DeriveObjectSchemaProperties | Iterable/helpers.ts:11-38 | The loop over `Object.entries(obj)` returns exactly `Derive(obj)`, including throwing when `obj` or a nested value is `null` |
| IterableHelpers.PropertiesOfFails | Iterable/helpers.ts:14-35 | The loop throws exactly when the schema of some entry throws |
| IterableHelpers.PropertiesOfPointwise | Iterable/helpers.ts:14-35 | For distinct keys, the result has one property per entry, in entry order, holding that entry's field schema |
| IterableHelpers.FieldSchemaDescribes | Iterable/helpers.ts:15-32 | A field schema exists exactly when no `null` is reachable in the value. It then describes the value: primitives map to String/Number/Boolean; objects and arrays map to object schemas with the value's keys, their featured keys and per-key schemas |
| IterableHelpers.DescribesExactly | Iterable/helpers.ts:15-32 | A schema describes a value if and only if it is the schema the inferencer computes for it, so the describing schema is unique |
| IterableHelpers.DeriveCorrect | Iterable/helpers.ts:11-38 | On parsed JSON, inference succeeds iff no `null` is reachable. The result's keys are then `Object.keys(obj)` in order, no key added or dropped, and each property describes the matching value |
| IterableHelpers.DescribesDepth | Iterable/helpers.ts:24-32 | The schema tree has the same depth as the value's object/array nesting |
| IterableHelpers.ArrayLengthShapesSchema | Iterable/helpers.ts:22-27 | Two null-free arrays of different lengths always get different schemas, whatever their elements |
| Helpers.GenerateObjectSchemaProperties | helpers.ts:8-32 | The loop returns exactly `Generate(obj)`, including throwing on a reachable `null` |
| Helpers.FieldErasure | helpers.ts:12-27 | A field gets the `deriveObjectSchemaProperties` schema with `featured` erased; the two versions throw on the same values |
| Helpers.PropertiesErasure | helpers.ts:11-29 | The loop builds the `deriveObjectSchemaProperties` properties with every `featured` erased, and throws exactly when that loop throws |
| Helpers.GenerateIsErasedDerive | helpers.ts:8-32 | `generateObjectSchemaProperties` is `deriveObjectSchemaProperties` with `featured` erased. On parsed JSON it succeeds iff no `null` is reachable; it then keeps `Object.keys(obj)` in order, with no `featured` list anywhere |
| Schemas.EraseUnfeatured | helpers.ts:20-26 | Erasing leaves no `featured` list anywhere and keeps an object schema's property keys |
| Schemas.ErasePut | helpers.ts:13 | Erasing commutes with property assignment |
| Campaigns.IncludesIff | Iterable/pack.ts:113-117 | `name.includes(sub)` holds iff `sub` occurs at some position of `name`; the empty string is included in every name |
| Campaigns.KeepIff | Iterable/pack.ts:111-118 | A row is kept iff none of "Untitled", "campaign from Published Workflow", its own workflowId, "campaign from Workflow", "*ARCHIVED*" occurs in its name; the first pack has the same code at pack.ts:49-56 |
| Campaigns.EmptyWorkflowIdIsDropped | Iterable/pack.ts:115 | A campaign whose workflowId is the empty string is always filtered out |
| Campaigns.FilterRowsSpec | Iterable/pack.ts:111-118 | The filter result is an order-preserving subsequence of its input. Each kept row occurs as often as in the input, each dropped row not at all, which determines the result |
| Campaigns.FilterRowsAppend | Iterable/pack.ts:111-118 | Filtering distributes over concatenation: a row's fate does not depend on its neighbours |
| Campaigns.SyncCampaignsSpec | Iterable/pack.ts:95-118 | The map keeps length; the table is an ordered subsequence of the renamed rows; a campaign is listed iff its row passes the filter; every listed row passes and is the renamed copy of some campaign; the first pack has the same code at pack.ts:33-56 |
| Catalogs.SplitJoin | Iterable/pack.ts:171 | `url.split("/")` gives pieces with no `/` that join back to `url` |
| Catalogs.JoinSplit | Iterable/pack.ts:171 | Splitting slash-free pieces joined by `/` gives back the pieces |
| Catalogs.LastSegmentSpec | Iterable/pack.ts:171 | `split("/").slice(-1)[0]` is the slash-free suffix of the URL after its last `/`, or the whole URL when it has no `/` |
| Catalogs.GetName | Iterable/pack.ts:169-173 | The table name has no `/`, is a suffix of the dynamic URL, and is preceded by `/` unless it is the whole URL; the first pack has the same code at pack.ts:77-81 |
| Catalogs.GetDisplayUrl | Iterable/pack.ts:174-178 | The display URL is "https://app.iterable.com/catalogs/table/" followed by exactly the table name; the first pack has the same code at pack.ts:82-86 |
| Catalogs.LastSegmentAfterSlash | Iterable/pack.ts:166 | The last segment of `base + "/" + name` is `name` exactly when `name` has no `/` |
| Catalogs.ListDynamicUrlsRoundTrip | Iterable/pack.ts:165-167 | One choice per catalog, displayed under its name. The table built from its URL gets that name, and links to that catalog's app page, exactly when the name has no `/`; the first pack has the same code at pack.ts:73-75 |
| Catalogs.WithItemFieldsSpec | Iterable/pack.ts:186-190 | `{...p, itemId, dateModified}` keeps p's keys in order, appending `itemId`/`dateModified` when absent; those two read as the given values and override p; every other key reads as in p |
| Catalogs.SpreadDistinct | Iterable/pack.ts:222 | Spreading a parsed JSON value copies distinct keys |
| Catalogs.CatalogRowSpec | Iterable/pack.ts:221-225 | A catalog row has the item value's own fields in order. `itemId` and `dateModified` (the item's date string) override same-named fields or are appended; every other field is unchanged; the first pack has the same code at pack.ts:129-133 |
| Catalogs.SyncCatalogOrder | Iterable/pack.ts:220-226 | The item mapper keeps length and order and distributes over concatenation |
| Catalogs.MakeCatalogSchemaSpec | Iterable/pack.ts:184-206 | The schema throws iff the sample is `null` or inference throws. `featured` is the sample keys then "dateModified"; id and primary are "itemId"; identity is "Entry" at the dynamic URL; properties are the inferred ones with itemId/dateModified overridden as String, other keys unchanged; the first pack has the same code at pack.ts:92-114 |
| Catalogs.FeaturedRepeatsDateModified | Iterable/pack.ts:185 | `featured` is not de-duplicated: a sample with its own `dateModified` field lists it twice |
| IterablePack.SyncChannelsRoundTrip | Iterable/pack.ts:33-40 | The Channels rows keep length and order, and each channel can be read back from its renamed row |
| IterablePack.SyncTemplatesOrder | Iterable/pack.ts:63-72 | Template row i carries template i's id, name, creator and message type, plus both dates as strings; the mapper distributes over concatenation |
| IterablePack.SyncListsOrder | Iterable/pack.ts:141-148 | List row i carries list i's id, name, type and creation date string; the mapper distributes over concatenation |
| IterablePack.GetSchemaSpec | Iterable/pack.ts:179-207 | On a parsed sample, the schema exists iff no `null` is reachable. Its featured, id, primary and identity are fixed as above; property keys are the sample keys plus itemId/dateModified when absent, both String; every other sample field's property describes that field |
| Pack.GetSchemaIsErased | pack.ts:87-115 | The first pack's catalog schema is the Iterable pack's with nested `featured` lists erased, and throws on the same samples |
| Pack.GetSchemaSpec | pack.ts:87-115 | On a parsed sample, the schema exists iff no `null` is reachable, and then no property schema carries a `featured` list |

## Left out

- HTTP requests (`context.fetcher.fetch`), authentication, `addNetworkDomain` and table registration are host-SDK input/output and configuration. The modelled functions take the already-fetched response fields as parameters.
- `new Date(x).toString()` depends on the host's clock zone and date parser. It is the parameter `dateString: Json -> string`.
- JavaScript lists integer-like keys first, in ascending order. Every object is taken as a key sequence already in enumeration order; this reordering is not modelled.
- Values that parsed JSON cannot contain are not modelled: `undefined`, functions, symbols, cyclic and sparse arrays. The if-chain silently skips the first three.
- Assigning a property named `__proto__` changes the prototype instead of adding a key. `Put` treats it as an ordinary key.
- `getSchema` reads `catalogItemsWithProperties[0].value`, which throws on an empty catalog. `IterablePack.GetSchema` and `Pack.GetSchema` take that sample value as a parameter.
- Campaigns: `name` and `workflowId` are strings. A missing `name` (which makes `.includes` throw) and `includes`' string coercion of a numeric or missing `workflowId` are not modelled.
- The Channels, Templates, Lists and catalog inputs are records whose fields are JSON values. A missing field read as `undefined` is not modelled.
- Strings are sequences of Dafny characters rather than UTF-16 code units. This matters for `includes`, `split` and spreading a string.
- JSON numbers are reals and bigints are integers. Only their type matters to the model.
- `makeObjectSchema` and `makeSchema` are plain record constructors; any normalisation the SDK does inside them is not modelled.
- `Iterable/schemas.ts`, `schemas.ts` and `ClickUp/pack.ts` are not part of this model (static table schemas and authentication setup only).
