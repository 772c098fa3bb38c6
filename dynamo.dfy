/**
 * The part of the DynamoDB data model and query interface that the handler touches:
 * attribute values, items (records), the query request it builds and the store it sends it to.
 */
module Dynamo {
  import opened Wrappers

  /**
   * A DynamoDB attribute value. Each of the four members the handler reads may be absent (null
   * in the SDK). Numbers (`N`) are carried as strings, exactly as the SDK carries them, so
   * nothing in the model parses or computes with them. Other members of the SDK type (BOOL,
   * NULL, SS, NS, B, ...) are never read and are not modelled.
   */
  datatype AttributeValue = AttributeValue(
    N: Option<string>,
    S: Option<string>,
    L: Option<seq<AttributeValue>>,
    M: Option<map<string, AttributeValue>>)

  /** One raw item as the store returns it: attribute name to attribute value. */
  type Record = map<string, AttributeValue>

  /** An attribute holding only the number `n` (in its string form). */
  function NumberValue(n: string): AttributeValue
  {
    AttributeValue(Some(n), None, None, None)
  }

  /** An attribute holding only the string `s`. */
  function StringValue(s: string): AttributeValue
  {
    AttributeValue(None, Some(s), None, None)
  }

  /** The query the handler sends for one table: a partition-key match, newest first. */
  datatype QueryRequest = QueryRequest(
    tableName: string,
    keyConditionExpression: string,
    expressionAttributeValues: map<string, AttributeValue>,
    scanIndexForward: bool)

  /** The request for all items of partition `userId` in `tableName`, in descending sort-key order. */
  function BuildQuery(tableName: string, userId: string): (q: QueryRequest)
    ensures q.tableName == tableName
    ensures q.keyConditionExpression == "PK = :userId"
    ensures q.expressionAttributeValues.Keys == {":userId"}
    ensures q.expressionAttributeValues[":userId"].S == Some(userId)
    ensures !q.scanIndexForward
  {
    QueryRequest(tableName, "PK = :userId", map[":userId" := StringValue(userId)], false)
  }

  /**
   * The store as seen from the handler: for each query it either returns the matching items
   * (in the store's order) or fails with the message of the exception the SDK raises.
   */
  type Store = QueryRequest -> Result<seq<Record>, string>
}
