/** DynamoResultIterator: a forward cursor over the rows a DynamoDB query or scan
    yields, decoding each row by a caller-supplied field-type map and logging a
    diagnostic before it rethrows a validation failure. */
module ResultIterator {
  import opened Wrappers
  import opened Sdk
  import opened TreeMaps
  import opened QueryParameters

  const VALIDATION_EXCEPTION := "ValidationException"
  const TABLE_DESC_UNAVAILABLE := "TABLE DESC UNAVAILABLE: "

  type Row = map<FieldName, Obj>

  /** What a cursor operation throws. */
  datatype Exception =
    | SdkError(e: SdkException)      // an SDK exception, passed on as it is
    | NoSuchElement                  // next() past the last item
    | CastFailure(field: FieldName)  // the Object[] to String[] / Number[] cast of the SS and NS branches
    | NullPointer                    // getErrorCode() returned null and was dereferenced

  /** What the cursor writes to its logger at warning level. */
  datatype LogEntry =
    | UnaccountedType(field: FieldName, fieldType: string)
    | ValidationWarning(message: Option<string>, queryDebug: string, tableDebug: string)

  // ---------------------------------------------------------------------------
  // Query or scan

  datatype Request = Query(query: QuerySpec) | Scan(scan: ScanSpec)

  function KeyConditionOf(r: Request): Option<string>
  {
    match r
    case Query(q) => Some(q.keyConditionExpression)
    case Scan(_) => None
  }

  function ProjectionOf(r: Request): Option<string>
  {
    match r
    case Query(q) => q.projectionExpression
    case Scan(s) => s.projectionExpression
  }

  function FilterOf(r: Request): Option<string>
  {
    match r
    case Query(q) => q.filterExpression
    case Scan(s) => s.filterExpression
  }

  function NameMapOf(r: Request): Option<NameMap>
  {
    match r
    case Query(q) => q.nameMap
    case Scan(s) => s.nameMap
  }

  function ValueMapOf(r: Request): Option<ValueMap>
  {
    match r
    case Query(q) => q.valueMap
    case Scan(s) => s.valueMap
  }

  /** The request the constructor builds from the five parameters: a query
      exactly when a key condition is present, else a scan, which then carries
      no key condition; each map is attached exactly when it is non-null. */
  function BuildRequest(projection: Option<string>, keyCondition: Option<string>, filter: Option<string>,
                        names: Option<NameMap>, values: Option<ValueMap>): (r: Request)
    ensures r.Query? <==> keyCondition.Some?
    ensures KeyConditionOf(r) == keyCondition
    ensures ProjectionOf(r) == projection && FilterOf(r) == filter
    ensures NameMapOf(r) == names && ValueMapOf(r) == values
  {
    match keyCondition
    case Some(k) => Query(QuerySpec(projection, k, filter, names, values))
    case None => Scan(ScanSpec(projection, filter, names, values))
  }

  /** What the store's paging iterator yields for the request. */
  function Submit(client: Client, tableName: string, r: Request): seq<Fetch>
  {
    match r
    case Query(q) => client.query(tableName, q)
    case Scan(s) => client.scan(tableName, s)
  }

  // ---------------------------------------------------------------------------
  // Row decoding

  /** `fieldToType.getOrDefault(fieldName, NULL)`. */
  function FieldType(types: map<FieldName, AttrType>, f: FieldName): AttrType
  {
    if f in types then types[f] else NULL
  }

  /** The arms of the decoder's switch on the lower-cased type name. */
  datatype Arm =
    | PutString | PutNumber | PutLong | PutBool | PutBinary
    | CastStringSet | CastNumberSet
    | Skip
    | PutRaw
    | Unaccounted

  function ArmOf(key: string): Arm
  {
    if key == "s" then PutString
    else if key == "n" then PutNumber
    else if key == "l" then PutLong
    else if key == "bool" then PutBool
    else if key == "b" then PutBinary
    else if key == "ss" then CastStringSet
    else if key == "ns" then CastNumberSet
    else if key == "bs" || key == "m" then Skip
    else if key == "null" then PutRaw
    else Unaccounted
  }

  function ArmAt(types: map<FieldName, AttrType>, f: FieldName): Arm
  {
    ArmOf(SwitchKey(FieldType(types, f)))
  }

  /** What one field of a raw item becomes. */
  datatype FieldStep = Emit(value: Obj) | Drop | Warn(fieldType: string) | Throw

  /** The per-field decision of the decode loop. */
  function DecodeField(types: map<FieldName, AttrType>, item: Item, f: FieldName, access: ItemAccess): FieldStep
    requires f in item
  {
    match ArmAt(types, f)
    case PutString => Emit(Str(access.getString(item, f)))
    case PutNumber => Emit(Number(access.getNumber(item, f)))
    case PutLong => Emit(Long(access.getLong(item, f)))
    case PutBool => Emit(Bool(access.getBOOL(item, f)))
    case PutBinary => Emit(Bytes(access.getBinary(item, f)))
    case CastStringSet => Throw
    case CastNumberSet => Throw
    case Skip => Drop
    case PutRaw => Emit(item[f])
    case Unaccounted => Warn(SwitchKey(FieldType(types, f)))
  }

  /** Decoding by type happens only for a non-null, non-empty type map. */
  predicate TypesActive(fieldToType: Option<map<FieldName, AttrType>>)
  {
    fieldToType.Some? && |fieldToType.value| > 0
  }

  predicate ThrowsAt(fieldToType: Option<map<FieldName, AttrType>>, item: Item, f: FieldName)
  {
    TypesActive(fieldToType) && f in item && ArmAt(fieldToType.value, f) in {CastStringSet, CastNumberSet}
  }

  predicate UnaccountedAt(fieldToType: Option<map<FieldName, AttrType>>, item: Item, f: FieldName)
  {
    TypesActive(fieldToType) && f in item && ArmAt(fieldToType.value, f) == Unaccounted
  }

  /** Decoding the item throws: some field takes the SS or NS branch. */
  ghost predicate DecodeThrows(fieldToType: Option<map<FieldName, AttrType>>, item: Item)
  {
    exists f :: f in item && ThrowsAt(fieldToType, item, f)
  }

  /** The values the fields in `done` put into the row. */
  function RowOver(types: map<FieldName, AttrType>, item: Item, access: ItemAccess, done: set<FieldName>): Row
    requires done <= item.Keys
  {
    map f | f in done && DecodeField(types, item, f, access).Emit? :: DecodeField(types, item, f, access).value
  }

  lemma RowOverStep(types: map<FieldName, AttrType>, item: Item, access: ItemAccess, done: set<FieldName>, f: FieldName)
    requires done <= item.Keys && f in item && f !in done
    ensures DecodeField(types, item, f, access).Emit? ==>
              RowOver(types, item, access, done + {f}) == RowOver(types, item, access, done)[f := DecodeField(types, item, f, access).value]
    ensures !DecodeField(types, item, f, access).Emit? ==>
              RowOver(types, item, access, done + {f}) == RowOver(types, item, access, done)
  {
  }

  /** The decoded row, when decoding does not throw. */
  function DecodedRow(fieldToType: Option<map<FieldName, AttrType>>, item: Item, access: ItemAccess): Row
  {
    if !TypesActive(fieldToType) then item else RowOver(fieldToType.value, item, access, item.Keys)
  }

  /** Without a type map, or with an empty one, the row is the raw item. */
  lemma PassThroughWithoutTypes(fieldToType: Option<map<FieldName, AttrType>>, item: Item, access: ItemAccess)
    requires fieldToType.None? || fieldToType.value == map[]
    ensures !DecodeThrows(fieldToType, item)
    ensures DecodedRow(fieldToType, item, access) == item
  {
  }

  /** Decoding only ever keeps or drops the item's own fields. */
  lemma DecodedKeysWithinItem(fieldToType: Option<map<FieldName, AttrType>>, item: Item, access: ItemAccess)
    ensures DecodedRow(fieldToType, item, access).Keys <= item.Keys
  {
  }

  /** How each field of the item fares under a non-empty type map. */
  lemma DecodedField(types: map<FieldName, AttrType>, item: Item, access: ItemAccess, f: FieldName)
    requires |types| > 0 && f in item
    ensures var row := DecodedRow(Some(types), item, access);
      && (f !in types ==> f in row && row[f] == item[f])
      && (FieldType(types, f) == NULL ==> f in row && row[f] == item[f])
      && (FieldType(types, f) == S ==> f in row && row[f] == Str(access.getString(item, f)))
      && (FieldType(types, f) == N ==> f in row && row[f] == Number(access.getNumber(item, f)))
      && (FieldType(types, f) == L ==> f in row && row[f] == Long(access.getLong(item, f)))
      && (FieldType(types, f) == BOOL ==> f in row && row[f] == Bool(access.getBOOL(item, f)))
      && (FieldType(types, f) == B ==> f in row && row[f] == Bytes(access.getBinary(item, f)))
      && (FieldType(types, f) in {BS, M} ==> f !in row)
      && (FieldType(types, f) in {SS, NS} ==> DecodeThrows(Some(types), item))
      && (UnaccountedAt(Some(types), item, f) ==> f !in row)
  {
  }

  lemma SameTypesSameRow(t1: map<FieldName, AttrType>, t2: map<FieldName, AttrType>, item: Item, access: ItemAccess)
    requires forall f :: f in item ==> FieldType(t1, f) == FieldType(t2, f)
    ensures RowOver(t1, item, access, item.Keys) == RowOver(t2, item, access, item.Keys)
  {
    var r1, r2 := RowOver(t1, item, access, item.Keys), RowOver(t2, item, access, item.Keys);
    forall f | f in item ensures DecodeField(t1, item, f, access) == DecodeField(t2, item, f, access) {
    }
    assert r1.Keys == r2.Keys;
  }

  lemma AllNullRawRow(types: map<FieldName, AttrType>, item: Item, access: ItemAccess)
    requires forall f :: f in item ==> FieldType(types, f) == NULL
    ensures RowOver(types, item, access, item.Keys) == item
  {
    var row := RowOver(types, item, access, item.Keys);
    forall f | f in item ensures DecodeField(types, item, f, access) == Emit(item[f]) {
    }
    assert row.Keys == item.Keys;
  }

  /** Type-map entries for fields the item does not have change nothing, even
      when they are all the map holds: every item field then defaults to NULL
      and passes through raw. */
  lemma AbsentFieldTypesAddNothing(types: map<FieldName, AttrType>, extra: map<FieldName, AttrType>,
                                   item: Item, access: ItemAccess)
    requires extra.Keys !! item.Keys
    ensures DecodeThrows(Some(types + extra), item) == DecodeThrows(Some(types), item)
    ensures DecodedRow(Some(types + extra), item, access) == DecodedRow(Some(types), item, access)
  {
    var all := types + extra;
    forall f | f in item ensures FieldType(all, f) == FieldType(types, f) {
    }
    if |types| > 0 {
      var k :| k in types;
      assert k in all;
      SameTypesSameRow(all, types, item, access);
      forall f | f in item ensures ThrowsAt(Some(all), item, f) == ThrowsAt(Some(types), item, f) {
      }
    } else if |all| > 0 {
      AllNullRawRow(all, item, access);
      forall f | f in item ensures !ThrowsAt(Some(all), item, f) {
      }
    }
  }

  /** `ws` warns about unaccounted-for fields of the item only, each at most once. */
  ghost predicate WarnedOnce(fieldToType: Option<map<FieldName, AttrType>>, item: Item, ws: seq<LogEntry>)
  {
    && (forall i :: 0 <= i < |ws| ==>
          ws[i].UnaccountedType? && UnaccountedAt(fieldToType, item, ws[i].field)
          && ws[i].fieldType == SwitchKey(FieldType(fieldToType.value, ws[i].field)))
    && (forall i, j :: 0 <= i < j < |ws| ==> ws[i].field != ws[j].field)
  }

  ghost predicate Warned(ws: seq<LogEntry>, f: FieldName)
  {
    exists i :: 0 <= i < |ws| && ws[i].UnaccountedType? && ws[i].field == f
  }

  /** The decode loop of `next()`: visits the item's fields in some order, puts
      each decoded value into the row, logs each unaccounted-for type, and stops
      at the first field that takes the SS or NS branch. */
  method DecodeItem(fieldToType: Option<map<FieldName, AttrType>>, item: Item, access: ItemAccess)
    returns (r: Result<Row, Exception>, warnings: seq<LogEntry>)
    ensures r.Ok? <==> !DecodeThrows(fieldToType, item)
    ensures r.Ok? ==> r.value == DecodedRow(fieldToType, item, access)
    ensures r.Err? ==> r.error.CastFailure? && ThrowsAt(fieldToType, item, r.error.field)
    ensures WarnedOnce(fieldToType, item, warnings)
    ensures r.Ok? ==> forall f :: UnaccountedAt(fieldToType, item, f) ==> Warned(warnings, f)
  {
    warnings := [];
    if !TypesActive(fieldToType) {
      return Ok(item), warnings;
    }
    var types := fieldToType.value;
    var itemMap: Row := map[];
    var todo := item.Keys;
    ghost var done: set<FieldName> := {};
    while todo != {}
      invariant todo <= item.Keys && done == item.Keys - todo
      invariant forall f :: f in done ==> !ThrowsAt(fieldToType, item, f)
      invariant itemMap == RowOver(types, item, access, done)
      invariant WarnedOnce(fieldToType, item, warnings)
      invariant forall i :: 0 <= i < |warnings| ==> warnings[i].field in done
      invariant forall f :: f in done && UnaccountedAt(fieldToType, item, f) ==> Warned(warnings, f)
      decreases todo
    {
      var f :| f in todo;
      RowOverStep(types, item, access, done, f);
      match DecodeField(types, item, f, access) {
        case Emit(v) =>
          itemMap := itemMap[f := v];
        case Drop =>
        case Warn(fieldType) =>
          ghost var prev := warnings;
          warnings := warnings + [UnaccountedType(f, fieldType)];
          assert warnings[|warnings| - 1].field == f;
          forall g | Warned(prev, g) ensures Warned(warnings, g) {
            var i :| 0 <= i < |prev| && prev[i].UnaccountedType? && prev[i].field == g;
            assert warnings[i] == prev[i];
          }
        case Throw =>
          return Err(CastFailure(f)), warnings;
      }
      todo := todo - {f};
      done := done + {f};
    }
    r := Ok(itemMap);
  }

  // ---------------------------------------------------------------------------
  // Error path

  predicate IsValidation(e: SdkException)
  {
    e.cls == AmazonDynamoDB && e.errorCode == Some(VALIDATION_EXCEPTION)
  }

  /** The outcome of an SDK exception raised by the paging iterator: what is
      thrown on, and what is logged first. */
  datatype Caught = Caught(thrown: Exception, logged: seq<LogEntry>)

  /** The catch blocks of `hasNext()` and `next()`. Only an
      AmazonDynamoDBException is caught; a validation failure is logged, with
      the query's and the table's debug text, before it is rethrown. */
  function Catch(e: SdkException, message: Option<string>, queryDebug: string,
                 tableDebug: Result<string, SdkException>): (c: Caught)
    ensures e.errorCode.Some? && (!IsValidation(e) || tableDebug.Ok?) ==> c.thrown == SdkError(e)
    ensures e.cls == OtherSdk ==> c == Caught(SdkError(e), [])
    ensures e.cls == AmazonDynamoDB && e.errorCode.None? ==> c == Caught(NullPointer, [])
    ensures IsValidation(e) && tableDebug.Err? ==> c == Caught(SdkError(tableDebug.error), [])
    ensures c.logged != [] <==> IsValidation(e) && tableDebug.Ok?
    ensures c.logged != [] ==> c.logged == [ValidationWarning(message, queryDebug, tableDebug.value)]
  {
    if e.cls == OtherSdk then Caught(SdkError(e), [])
    else if e.errorCode.None? then Caught(NullPointer, [])
    else if e.errorCode.value != VALIDATION_EXCEPTION then Caught(SdkError(e), [])
    else
      match tableDebug
      case Err(e') => Caught(SdkError(e'), [])
      case Ok(t) => Caught(SdkError(e), [ValidationWarning(message, queryDebug, t)])
  }

  // ---------------------------------------------------------------------------
  // Table description

  function AttributePairs(defs: seq<AttributeDefinition>): (ps: seq<(string, string)>)
    ensures |ps| == |defs|
    ensures forall i :: 0 <= i < |defs| ==> ps[i] == (defs[i].attributeName, defs[i].attributeType)
  {
    if defs == [] then [] else AttributePairs(defs[..|defs| - 1]) + [(defs[|defs| - 1].attributeName, defs[|defs| - 1].attributeType)]
  }

  function KeyPairs(schema: seq<KeySchemaElement>): (ps: seq<(string, string)>)
    ensures |ps| == |schema|
    ensures forall i :: 0 <= i < |schema| ==> ps[i] == (schema[i].attributeName, schema[i].keyType)
  {
    if schema == [] then [] else KeyPairs(schema[..|schema| - 1]) + [(schema[|schema| - 1].attributeName, schema[|schema| - 1].keyType)]
  }

  /** The debug text of a described table: its name, then its attribute
      definitions and its key schema, each collapsed into a name-ordered map. */
  function DescriptionText(d: TableDescription): string
  {
    "DynamoDB Table [" + d.tableName + "] DEBUG... \nFIELDS: " + Render(FromPairs(AttributePairs(d.attributeDefinitions)))
    + " \nKEY-FIELDS:" + Render(FromPairs(KeyPairs(d.keySchema)))
  }

  /** `getTableDebug()` given what `describe()` answered: an AmazonDynamoDBException
      becomes a fallback text; only another kind of exception propagates. */
  function TableDebugText(described: Result<TableDescription, SdkException>): (r: Result<string, SdkException>)
    ensures r.Err? <==> described.Err? && described.error.cls == OtherSdk
    ensures r.Err? ==> r.error == described.error
    ensures described.Err? && r.Ok? ==> r.value == TABLE_DESC_UNAVAILABLE + described.error.message
    ensures described.Ok? ==> r.Ok? && "DynamoDB Table [" <= r.value
  {
    match described
    case Ok(d) => Ok(DescriptionText(d))
    case Err(e) =>
      if e.cls == AmazonDynamoDB then Ok(TABLE_DESC_UNAVAILABLE + e.message)
      else
        assert e.cls == OtherSdk;
        Err(e)
  }

  /** Under a validation failure the original exception is rethrown unless
      describing the table itself throws something other than an
      AmazonDynamoDBException; any other AmazonDynamoDBException with an error
      code is rethrown unchanged, and only a validation failure logs. */
  lemma RethrowUnchanged(e: SdkException, message: Option<string>, queryDebug: string,
                         described: Result<TableDescription, SdkException>)
    requires e.errorCode.Some?
    requires described.Err? ==> described.error.cls == AmazonDynamoDB
    ensures Catch(e, message, queryDebug, TableDebugText(described)).thrown == SdkError(e)
    ensures |Catch(e, message, queryDebug, TableDebugText(described)).logged| == if IsValidation(e) then 1 else 0
  {
  }

  // ---------------------------------------------------------------------------
  // The cursor

  class DynamoResultIterator {
    var dynamoDB: Client
    var dynamoTable: string
    var dynamoQuery: Option<QuerySpec>
    var dynamoScan: Option<ScanSpec>
    /** Everything the store's paging iterator will deliver, and how much of it is consumed. */
    var dynamoIter: seq<Fetch>
    var consumed: nat
    var fieldToType: Option<map<FieldName, AttrType>>
    var queryParameters: DynamoQueryParameters
    var itemAccess: ItemAccess
    /** The warnings written to the logger so far. */
    var log: seq<LogEntry>

    ghost predicate Valid()
      reads this
    {
      consumed <= |dynamoIter| && (dynamoQuery.Some? <==> dynamoScan.None?)
    }

    /** The request the cursor was built with. */
    ghost function Request(): Request
      reads this
      requires Valid()
    {
      if dynamoQuery.Some? then Query(dynamoQuery.value) else Scan(dynamoScan.value)
    }

    /** The next step of the paging iterator, if any. */
    ghost function Pending(): Option<Fetch>
      reads this
      requires Valid()
    {
      if consumed < |dynamoIter| then Some(dynamoIter[consumed]) else None
    }

    function Describe(): Result<TableDescription, SdkException>
      reads this
    {
      dynamoDB.describe(dynamoTable)
    }

    constructor (dynamoClient: Client, tableName: string, queryParams: DynamoQueryParameters,
                 dataTypeMap: Option<map<FieldName, AttrType>>, access: ItemAccess)
      ensures Valid()
      ensures fieldToType == dataTypeMap && queryParameters == queryParams && itemAccess == access
      ensures dynamoDB == dynamoClient && dynamoTable == tableName
      ensures consumed == 0 && log == []
      ensures Request() == BuildRequest(queryParams.GetProjectionExpression(), queryParams.GetKeyConditionExpression(),
                                        queryParams.GetFilterExpression(), queryParams.GetNameMap(), queryParams.GetValueMap())
      ensures dynamoIter == Submit(dynamoClient, tableName, Request())
    {
      fieldToType := dataTypeMap;
      queryParameters := queryParams;
      dynamoDB := dynamoClient;
      dynamoTable := tableName;
      itemAccess := access;
      consumed := 0;
      log := [];

      var hasConditionExpression := queryParams.GetKeyConditionExpression().Some?;
      if hasConditionExpression {
        var query := QuerySpec(queryParams.GetProjectionExpression(), queryParams.GetKeyConditionExpression().value,
                               queryParams.GetFilterExpression(), None, None);
        if queryParams.GetNameMap().Some? {
          query := query.(nameMap := queryParams.GetNameMap());
        }
        if queryParams.GetValueMap().Some? {
          query := query.(valueMap := queryParams.GetValueMap());
        }
        dynamoQuery := Some(query);
        dynamoScan := None;
        dynamoIter := dynamoClient.query(tableName, query);
      } else {
        var scan := ScanSpec(queryParams.GetProjectionExpression(), queryParams.GetFilterExpression(), None, None);
        if queryParams.GetNameMap().Some? {
          scan := scan.(nameMap := queryParams.GetNameMap());
        }
        if queryParams.GetValueMap().Some? {
          scan := scan.(valueMap := queryParams.GetValueMap());
        }
        dynamoQuery := None;
        dynamoScan := Some(scan);
        dynamoIter := dynamoClient.scan(tableName, scan);
      }
    }

    /** Describes the table and renders it, or the fallback text. */
    method GetTableDebug() returns (r: Result<string, SdkException>)
      ensures r == TableDebugText(Describe())
    {
      var described := dynamoDB.describe(dynamoTable);
      if described.Err? {
        if described.error.cls == AmazonDynamoDB {
          return Ok(TABLE_DESC_UNAVAILABLE + described.error.message);
        }
        return Err(described.error);
      }
      var desc := described.value;

      var tableFields: Entries := [];
      var fields := desc.attributeDefinitions;
      for i := 0 to |fields|
        invariant tableFields == FromPairs(AttributePairs(fields[..i]))
      {
        assert fields[..i + 1][..i] == fields[..i];
        tableFields := Put(tableFields, fields[i].attributeName, fields[i].attributeType);
      }
      assert fields[..|fields|] == fields;

      var tableKeys: Entries := [];
      var schema := desc.keySchema;
      for i := 0 to |schema|
        invariant tableKeys == FromPairs(KeyPairs(schema[..i]))
      {
        assert schema[..i + 1][..i] == schema[..i];
        tableKeys := Put(tableKeys, schema[i].attributeName, schema[i].keyType);
      }
      assert schema[..|schema|] == schema;

      return Ok("DynamoDB Table [" + desc.tableName + "] DEBUG... \nFIELDS: " + Render(tableFields)
                + " \nKEY-FIELDS:" + Render(tableKeys));
    }

    /** The shared catch block: logs a validation failure, then says what to throw. */
    method OnSdkException(e: SdkException, message: Option<string>) returns (thrown: Exception)
      modifies this`log
      ensures var c := Catch(e, message, queryParameters.ToString(), TableDebugText(Describe()));
              thrown == c.thrown && log == old(log) + c.logged
    {
      if e.cls == OtherSdk {
        return SdkError(e);
      }
      if e.errorCode.None? {
        return NullPointer;
      }
      if e.errorCode.value == VALIDATION_EXCEPTION {
        var tableDebug := GetTableDebug();
        if tableDebug.Err? {
          return SdkError(tableDebug.error);
        }
        log := log + [ValidationWarning(message, queryParameters.ToString(), tableDebug.value)];
      }
      return SdkError(e);
    }

    method HasNext() returns (r: Result<bool, Exception>)
      requires Valid()
      modifies this`log
      ensures Valid()
      ensures Pending().None? ==> r == Ok(false) && log == old(log)
      ensures Pending().Some? && Pending().value.Fetched? ==> r == Ok(true) && log == old(log)
      ensures Pending().Some? && Pending().value.Failed? ==>
                var c := Catch(Pending().value.e, None, queryParameters.ToString(), TableDebugText(Describe()));
                r == Err(c.thrown) && log == old(log) + c.logged
    {
      if consumed < |dynamoIter| && dynamoIter[consumed].Failed? {
        var thrown := OnSdkException(dynamoIter[consumed].e, None);
        return Err(thrown);
      }
      return Ok(consumed < |dynamoIter|);
    }

    method Next() returns (r: Result<Row, Exception>)
      requires Valid()
      modifies this`consumed, this`log
      ensures Valid()
      ensures old(Pending()).None? ==> r == Err(NoSuchElement) && consumed == old(consumed) && log == old(log)
      ensures old(Pending()).Some? && old(Pending()).value.Failed? ==>
                var e := old(Pending()).value.e;
                var c := Catch(e, Some(e.message), queryParameters.ToString(), TableDebugText(Describe()));
                r == Err(c.thrown) && consumed == old(consumed) && log == old(log) + c.logged
      ensures old(Pending()).Some? && old(Pending()).value.Fetched? ==>
                var item := old(Pending()).value.item;
                && consumed == old(consumed) + 1
                && (r.Ok? <==> !DecodeThrows(fieldToType, item))
                && (r.Ok? ==> r.value == DecodedRow(fieldToType, item, itemAccess))
                && (r.Err? ==> r.error.CastFailure? && ThrowsAt(fieldToType, item, r.error.field))
                && |old(log)| <= |log| && log[..|old(log)|] == old(log)
                && WarnedOnce(fieldToType, item, log[|old(log)|..])
                && (r.Ok? ==> forall f :: UnaccountedAt(fieldToType, item, f) ==> Warned(log[|old(log)|..], f))
    {
      if consumed == |dynamoIter| {
        return Err(NoSuchElement);
      }
      match dynamoIter[consumed]
      case Failed(e) =>
        var thrown := OnSdkException(e, Some(e.message));
        r := Err(thrown);
      case Fetched(itemData) =>
        consumed := consumed + 1;
        var warnings;
        r, warnings := DecodeItem(fieldToType, itemData, itemAccess);
        ghost var before := log;
        log := log + warnings;
        assert log[..|before|] == before && log[|before|..] == warnings;
    }

    /** Removal is not supported: nothing happens. */
    method Remove()
      ensures unchanged(this)
    {
    }
  }
}
