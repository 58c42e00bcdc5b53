/** The parts of the AWS DynamoDB SDK that the cursor touches, as plain data.
    Everything the SDK computes (network calls, item getters) is a function
    value handed in by the caller, so the model makes no claim about it. */
module Sdk {
  import opened Wrappers

  type FieldName = string

  /** Java's `long`. */
  type Int64 = x: int | -0x8000_0000_0000_0000 <= x < 0x8000_0000_0000_0000

  /** java.math.BigDecimal: the number unscaled * 10^(-scale). */
  datatype Decimal = Decimal(unscaled: int, scale: int)

  /** A Java object as it can appear in an item's attribute map or in a decoded row. */
  datatype Obj =
    | Null
    | Str(s: string)
    | Number(n: Decimal)
    | Long(l: Int64)
    | Bool(b: bool)
    | Bytes(bytes: seq<bv8>)
    | StringSet(strings: set<string>)
    | NumberSet(numbers: set<Decimal>)
    | BinarySet(blobs: set<seq<bv8>>)
    | List(elements: seq<Obj>)
    | Map(entries: map<string, Obj>)

  /** A raw row as returned by `Item.asMap()`. */
  type Item = map<FieldName, Obj>

  /** com.amazonaws...document.utils.NameMap and ValueMap. */
  type NameMap = map<string, string>
  type ValueMap = map<string, Obj>

  /** DynamoDBMapperFieldModel.DynamoDBAttributeType. The SDK enum has the ten
      named values; `Other` stands for any further value, carrying its name
      already lower-cased. */
  datatype AttrType = S | N | L | BOOL | B | SS | NS | BS | M | NULL | Other(lowerName: string)

  /** `type.toString().toLowerCase()`: the key the decoder switches on. */
  function SwitchKey(t: AttrType): string
  {
    match t
    case S => "s"
    case N => "n"
    case L => "l"
    case BOOL => "bool"
    case B => "b"
    case SS => "ss"
    case NS => "ns"
    case BS => "bs"
    case M => "m"
    case NULL => "null"
    case Other(name) => name
  }

  /** The typed getters of `Item`: library conversions the model leaves uninterpreted. */
  datatype ItemAccess = ItemAccess(
    getString: (Item, FieldName) -> string,
    getNumber: (Item, FieldName) -> Decimal,
    getLong: (Item, FieldName) -> Int64,
    getBOOL: (Item, FieldName) -> bool,
    getBinary: (Item, FieldName) -> seq<bv8>)

  /** Whether a thrown SDK exception is an AmazonDynamoDBException (or a subclass
      of it) or some other SDK exception (a client-side failure, say). */
  datatype ExceptionClass = AmazonDynamoDB | OtherSdk

  /** A thrown SDK exception: its class, `getErrorCode()` (which may be null) and
      `getMessage()`. */
  datatype SdkException = SdkException(cls: ExceptionClass, errorCode: Option<string>, message: string)

  datatype AttributeDefinition = AttributeDefinition(attributeName: string, attributeType: string)
  datatype KeySchemaElement = KeySchemaElement(attributeName: string, keyType: string)
  datatype TableDescription = TableDescription(
    tableName: string,
    attributeDefinitions: seq<AttributeDefinition>,
    keySchema: seq<KeySchemaElement>)

  /** QuerySpec and ScanSpec as the cursor fills them; a `None` map was never attached. */
  datatype QuerySpec = QuerySpec(
    projectionExpression: Option<string>,
    keyConditionExpression: string,
    filterExpression: Option<string>,
    nameMap: Option<NameMap>,
    valueMap: Option<ValueMap>)

  datatype ScanSpec = ScanSpec(
    projectionExpression: Option<string>,
    filterExpression: Option<string>,
    nameMap: Option<NameMap>,
    valueMap: Option<ValueMap>)

  /** One step of the paging iterator an ItemCollection hands back: the next item,
      or the exception its page fetch throws. */
  datatype Fetch = Fetched(item: Item) | Failed(e: SdkException)

  /** The AmazonDynamoDB client: what a query or a scan of a named table yields,
      and what `Table.describe()` answers. */
  datatype Client = Client(
    query: (string, QuerySpec) -> seq<Fetch>,
    scan: (string, ScanSpec) -> seq<Fetch>,
    describe: string -> Result<TableDescription, SdkException>)
}
