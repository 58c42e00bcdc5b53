# DynamoDIH result cursor, modelled in Dafny

DynamoDIH feeds rows from an AWS DynamoDB table into Solr's data import handler.
Its own logic sits in two classes:

- `DynamoQueryParameters`, a mutable bag of five optional pieces of a request:
  the attribute-name map, the attribute-value map, and the filter, projection
  and key-condition expressions.
- `DynamoResultIterator`, a forward cursor over what the table returns. Its
  constructor runs a query when a key condition is set and a scan otherwise.
  `next()` decodes each row through a caller-supplied field-type map.
  `hasNext()` and `next()` log a diagnostic before they rethrow a DynamoDB
  validation failure. `getTableDebug()` renders the table's attribute
  definitions and key schema as name-ordered maps.

The model keeps the SDK opaque:

- The DynamoDB client is a value (`Sdk.Client`) holding three functions: what a
  query yields, what a scan yields, and what `describe()` answers.
- A query or scan yields a sequence of steps, each an item or a thrown SDK
  exception (`Sdk.Fetch`).
- The typed getters of `Item` (`getString`, `getNumber`, `getLong`, `getBOOL`,
  `getBinary`) are function values in `Sdk.ItemAccess`.
- Java `null` is `Option.None`. A thrown exception is `Result.Err`.
- The logger is the cursor's `log` field, a sequence of warnings.

Modules:

- `Wrappers` defines Option and Result.
- `Sdk` models the SDK's data: Java objects in items (`Obj`), attribute types,
  exceptions, table descriptions, and query and scan specs.
- `TreeMaps` models `java.util.TreeMap<String, String>` as a strictly ordered
  entry list under `String.compareTo`.
- `QueryParameters` holds the class `DynamoQueryParameters`.
- `ResultIterator` holds the request builder, the row decoder, the catch logic,
  the table-debug text and the class `DynamoResultIterator`.

Behaviour as written that the model keeps:

- The string-set and number-set branches cast `toArray()` (an `Object[]`) to
  `String[]` or `Number[]`. That cast always fails at run time. So these two
  tags make `next()` throw (`CastFailure`) instead of producing a sequence of
  strings or numbers.
- `e.getErrorCode().equals(...)` dereferences the error code. A DynamoDB
  exception with a null error code therefore surfaces as a
  `NullPointerException` instead of being rethrown.
- `getTableDebug()` catches only `AmazonDynamoDBException`. If describing the
  table throws any other SDK exception during the diagnostic, that exception
  replaces the one being rethrown.
- `toString()` of the parameters is empty, so the diagnostic's query part is
  always empty.

## Model

| member | source | states |
|---|---|---|
| `QueryParameters.DynamoQueryParameters.constructor` | src/main/java/com/dhi/solr/dataimporthandler/DynamoQueryParameters.java:32-36 | a fresh object has all five fields null |
| `QueryParameters.DynamoQueryParameters.SetNameMap` | src/main/java/com/dhi/solr/dataimporthandler/DynamoQueryParameters.java:39-41 | any value, null included, is read back by the getter; the other four fields are unchanged |
| `QueryParameters.DynamoQueryParameters.SetValueMap` | src/main/java/com/dhi/solr/dataimporthandler/DynamoQueryParameters.java:43-45 | the value map is read back as set; the other four fields are unchanged |
| `QueryParameters.DynamoQueryParameters.SetFilterExpression` | src/main/java/com/dhi/solr/dataimporthandler/DynamoQueryParameters.java:47-49 | the filter expression is read back as set; the other four fields are unchanged |
| `QueryParameters.DynamoQueryParameters.SetProjectionExpression` | src/main/java/com/dhi/solr/dataimporthandler/DynamoQueryParameters.java:51-53 | the projection expression is read back as set; the other four fields are unchanged |
| `QueryParameters.DynamoQueryParameters.SetKeyConditionExpression` | src/main/java/com/dhi/solr/dataimporthandler/DynamoQueryParameters.java:55-57 | the key condition is read back as set; the other four fields are unchanged |
| `QueryParameters.DynamoQueryParameters.ToString` | src/main/java/com/dhi/solr/dataimporthandler/DynamoQueryParameters.java:80-83 | the debug text is empty, whatever the fields hold |
| `ResultIterator.BuildRequest` | src/main/java/com/dhi/solr/dataimporthandler/DynamoResultIterator.java:59-92 | a query exactly when a key condition is present, else a scan, which carries no key condition; projection and filter pass through; each map is attached exactly when it is non-null |
| `ResultIterator.DynamoResultIterator.constructor` | src/main/java/com/dhi/solr/dataimporthandler/DynamoResultIterator.java:50-98 | exactly one of query and scan spec is set, equal to the built request, read from the parameters' getters; the cursor holds what the store yields for it, nothing consumed, nothing logged |
| `ResultIterator.DecodeItem` | src/main/java/com/dhi/solr/dataimporthandler/DynamoResultIterator.java:167-223 | the decode loop succeeds exactly when no field takes the SS or NS branch, and then yields the decoded row; on failure it names a field that takes one of those branches; it warns once per field whose type is unaccounted for, and only about such fields |
| `ResultIterator.PassThroughWithoutTypes` | src/main/java/com/dhi/solr/dataimporthandler/DynamoResultIterator.java:168-222 | with a null or empty type map the row is exactly the raw item and nothing throws |
| `ResultIterator.DecodedKeysWithinItem` | src/main/java/com/dhi/solr/dataimporthandler/DynamoResultIterator.java:169-219 | the decoded row's keys are a subset of the item's keys |
| `ResultIterator.DecodedField` | src/main/java/com/dhi/solr/dataimporthandler/DynamoResultIterator.java:173-219 | a field missing from the type map, or typed NULL, passes through raw; S, N, L, BOOL and B hold the matching getter's result; BS, M and unrecognised types are absent; SS and NS make decoding throw |
| `ResultIterator.AbsentFieldTypesAddNothing` | src/main/java/com/dhi/solr/dataimporthandler/DynamoResultIterator.java:168-173 | type-map entries for fields the item lacks change neither the row nor whether decoding throws |
| `ResultIterator.Catch` | src/main/java/com/dhi/solr/dataimporthandler/DynamoResultIterator.java:138-147 | only an AmazonDynamoDBException is caught; it is rethrown unchanged unless its error code is null (NullPointerException) or the diagnostic's describe throws another kind; a warning is logged exactly for a validation failure whose table text was produced |
| `ResultIterator.RethrowUnchanged` | src/main/java/com/dhi/solr/dataimporthandler/DynamoResultIterator.java:136-164 | with a non-null error code and a describe that fails, if at all, with a DynamoDB exception, the original exception is rethrown, and one warning is logged exactly for "ValidationException" |
| `ResultIterator.TableDebugText` | src/main/java/com/dhi/solr/dataimporthandler/DynamoResultIterator.java:108-131 | a DynamoDB exception from describe never propagates: the text is "TABLE DESC UNAVAILABLE: " and its message; only another kind of exception propagates; a described table renders as a text starting "DynamoDB Table [" |
| `ResultIterator.DynamoResultIterator.GetTableDebug` | src/main/java/com/dhi/solr/dataimporthandler/DynamoResultIterator.java:108-131 | the two put-loops into tree maps give exactly the table-debug text, or the fallback |
| `ResultIterator.DynamoResultIterator.OnSdkException` | src/main/java/com/dhi/solr/dataimporthandler/DynamoResultIterator.java:158-163 | the shared catch block throws and logs what `Catch` says, with the empty query text and the table-debug text |
| `ResultIterator.DynamoResultIterator.HasNext` | src/main/java/com/dhi/solr/dataimporthandler/DynamoResultIterator.java:134-149 | answers whether a step remains, without consuming or logging; at a failed step it throws and logs as `Catch` says; when exhausted it keeps answering false |
| `ResultIterator.DynamoResultIterator.Next` | src/main/java/com/dhi/solr/dataimporthandler/DynamoResultIterator.java:151-226 | when exhausted it throws NoSuchElement and changes nothing; at a failed step it throws as `Catch` says, with the message, and does not advance; otherwise it advances by one and returns the decoded row or the cast failure, appending the decode warnings to the log |
| `ResultIterator.DynamoResultIterator.Remove` | src/main/java/com/dhi/solr/dataimporthandler/DynamoResultIterator.java:228-231 | changes nothing |
| `TreeMaps.Put` | src/main/java/com/dhi/solr/dataimporthandler/DynamoResultIterator.java:116 | putting into an ordered map keeps it strictly ordered by name, adds the name to its keys and maps it to the new value, leaving the others |
| `TreeMaps.FromPairsLastWins` | src/main/java/com/dhi/solr/dataimporthandler/DynamoResultIterator.java:113-124 | after the put-loop each name maps to the value of its last occurrence in the list |
| `TreeMaps.FromPairsKeys` | src/main/java/com/dhi/solr/dataimporthandler/DynamoResultIterator.java:113-124 | after the put-loop the names with an entry are exactly the names in the list |
| `TreeMaps.SortedOrdered` | src/main/java/com/dhi/solr/dataimporthandler/DynamoResultIterator.java:113-120 | the entries of an ordered map are in increasing `String.compareTo` order |
| `TreeMaps.SortedDistinct` | src/main/java/com/dhi/solr/dataimporthandler/DynamoResultIterator.java:113-120 | an ordered map holds each name once |
| `TreeMaps.SortedAsMapAt` | src/main/java/com/dhi/solr/dataimporthandler/DynamoResultIterator.java:113-126 | in an ordered map each listed pair is what the map holds for its name, so the rendered entries are exactly the last-wins map |

## Left out

- All network behaviour of the SDK is outside the model: opening the table, sending the query or scan, fetching pages, and `describe()`. They are the function values of `Sdk.Client`.
- A failed page fetch is modelled as failing again at the same position. The SDK does not document what its paging iterator does after a failure.
- The `Item` getters are uninterpreted and total. A getter that throws on a mismatched attribute, such as `getLong` on a list attribute under tag L, is not modelled.
- For SS and NS, the model does not distinguish a failing `getStringSet`/`getNumberSet` from the failing cast. Both are `CastFailure`.
- ResultIterator.DecodeItem: the item's key order is left open. So when decoding throws, the contract names some SS/NS field and some subset of the warnings, not the field and warnings the Java iteration order would produce.
- Log text is not modelled. This covers the `String.format` wording of warnings and the `LOG.debug` lines of the constructor. A warning records its parts only. An unaccounted-type warning also records the field name, which the Java message omits.
- The platform line separator `%n` is rendered as "\n".
- `String.compareTo` compares UTF-16 code units. `TreeMaps.Less` compares Dafny characters (Unicode scalar values). The two orders differ only for characters outside the Basic Multilingual Plane.
- A null value stored in the field-type map is not modelled. (`getOrDefault` would return null and `toString()` would throw.)
- Null attribute or key names (`TreeMap.put` throws `NullPointerException`) and null attribute or key types (stored and rendered as `name=null`) are not modelled: `AttributeDefinition` and `KeySchemaElement` hold plain strings.
- Null getter results are not modelled. For an attribute stored as null, `getString`, `getNumber` and `getBinary` return null, so Java puts null into the row; in the model these getters return a plain string, decimal or byte sequence, so such a field decodes to a non-null value.
- Failures in the constructor are not modelled: a missing table or bad credentials propagate from the SDK.
- The unchecked cast `(T) itemMap` and the unused `eType` locals are not modelled. Rows are typed `map<FieldName, Obj>`.
- Whether the `default` branch of the type switch is reachable depends on the SDK enum's values. The model has an `Other` tag and makes no claim about it.
