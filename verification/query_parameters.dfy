/** DynamoQueryParameters: a mutable bag of the five optional pieces of a query
    or scan, with plain setters and getters and no validation. */
module QueryParameters {
  import opened Wrappers
  import opened Sdk

  class DynamoQueryParameters {
    var nameMap: Option<NameMap>
    var valueMap: Option<ValueMap>
    var filterExpression: Option<string>
    var projectionExpression: Option<string>
    var keyConditionExpression: Option<string>

    /** No field has an initialiser, so a fresh object holds five nulls. */
    constructor ()
      ensures GetNameMap() == None && GetValueMap() == None
      ensures GetFilterExpression() == None && GetProjectionExpression() == None
      ensures GetKeyConditionExpression() == None
    {
      nameMap := None;
      valueMap := None;
      filterExpression := None;
      projectionExpression := None;
      keyConditionExpression := None;
    }

    // Each setter takes any value, null included, and moves only its own field.

    method SetNameMap(nameMap: Option<NameMap>)
      modifies this`nameMap
      ensures GetNameMap() == nameMap
      ensures GetValueMap() == old(GetValueMap()) && GetFilterExpression() == old(GetFilterExpression())
      ensures GetProjectionExpression() == old(GetProjectionExpression())
      ensures GetKeyConditionExpression() == old(GetKeyConditionExpression())
    {
      this.nameMap := nameMap;
    }

    method SetValueMap(valueMap: Option<ValueMap>)
      modifies this`valueMap
      ensures GetValueMap() == valueMap
      ensures GetNameMap() == old(GetNameMap()) && GetFilterExpression() == old(GetFilterExpression())
      ensures GetProjectionExpression() == old(GetProjectionExpression())
      ensures GetKeyConditionExpression() == old(GetKeyConditionExpression())
    {
      this.valueMap := valueMap;
    }

    method SetFilterExpression(filterExpression: Option<string>)
      modifies this`filterExpression
      ensures GetFilterExpression() == filterExpression
      ensures GetNameMap() == old(GetNameMap()) && GetValueMap() == old(GetValueMap())
      ensures GetProjectionExpression() == old(GetProjectionExpression())
      ensures GetKeyConditionExpression() == old(GetKeyConditionExpression())
    {
      this.filterExpression := filterExpression;
    }

    method SetProjectionExpression(projectionExpression: Option<string>)
      modifies this`projectionExpression
      ensures GetProjectionExpression() == projectionExpression
      ensures GetNameMap() == old(GetNameMap()) && GetValueMap() == old(GetValueMap())
      ensures GetFilterExpression() == old(GetFilterExpression())
      ensures GetKeyConditionExpression() == old(GetKeyConditionExpression())
    {
      this.projectionExpression := projectionExpression;
    }

    method SetKeyConditionExpression(keyConditionExpression: Option<string>)
      modifies this`keyConditionExpression
      ensures GetKeyConditionExpression() == keyConditionExpression
      ensures GetNameMap() == old(GetNameMap()) && GetValueMap() == old(GetValueMap())
      ensures GetFilterExpression() == old(GetFilterExpression())
      ensures GetProjectionExpression() == old(GetProjectionExpression())
    {
      this.keyConditionExpression := keyConditionExpression;
    }

    function GetNameMap(): Option<NameMap>
      reads this
    {
      nameMap
    }

    function GetValueMap(): Option<ValueMap>
      reads this
    {
      valueMap
    }

    function GetFilterExpression(): Option<string>
      reads this
    {
      filterExpression
    }

    function GetProjectionExpression(): Option<string>
      reads this
    {
      projectionExpression
    }

    function GetKeyConditionExpression(): Option<string>
      reads this
    {
      keyConditionExpression
    }

    /** The debug rendering is empty whatever the fields hold: it reads none of them. */
    function ToString(): (s: string)
      ensures |s| == 0
    {
      ""
    }
  }
}
