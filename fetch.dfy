/**
 * The dual-table fetch: one partition query per table, both issued before either is awaited,
 * joined all-or-nothing, public items first. Each failure message is wrapped twice on its
 * way out: once naming the table, once naming the join.
 */
module Fetch {
  import opened Wrappers
  import opened Dynamo

  /** The message of the exception a failed table query is rethrown as. */
  function TableError(tableName: string, cause: string): (msg: string)
    ensures "Error querying table " + tableName + ": " <= msg
    ensures |msg| == |"Error querying table " + tableName + ": "| + |cause|
    ensures msg[|msg| - |cause|..] == cause
  {
    "Error querying table " + tableName + ": " + cause
  }

  /** The message of the exception a failed join is rethrown as. */
  function JoinError(inner: string): (msg: string)
    ensures "Error in QueryTables: " <= msg
    ensures |msg| == |"Error in QueryTables: "| + |inner|
    ensures msg[|"Error in QueryTables: "|..] == inner
  {
    "Error in QueryTables: " + inner
  }

  /** One table's query: the store's items as they come, or its failure with the table named. */
  function QueryTable(store: Store, tableName: string, userId: string): (r: Result<seq<Record>, string>)
    ensures store(BuildQuery(tableName, userId)).Success? ==> r == store(BuildQuery(tableName, userId))
    ensures store(BuildQuery(tableName, userId)).Failure? ==>
              r == Failure(TableError(tableName, store(BuildQuery(tableName, userId)).error))
  {
    match store(BuildQuery(tableName, userId))
    case Success(items) => Success(items)
    case Failure(cause) => Failure(TableError(tableName, cause))
  }

  /**
   * Awaiting both queries together: the first failure in task order (public before private),
   * whatever order they completed in, or nothing when both succeeded.
   */
  function FirstFailure(first: Result<seq<Record>, string>, second: Result<seq<Record>, string>): (f: Option<string>)
    ensures f.None? <==> first.Success? && second.Success?
    ensures first.Failure? ==> f == Some(first.error)
    ensures first.Success? && second.Failure? ==> f == Some(second.error)
  {
    if first.Failure? then Some(first.error)
    else if second.Failure? then Some(second.error)
    else None
  }

  /**
   * What the fetch yields: the public items followed by the private items when both queries
   * succeed, and otherwise the first failure wrapped once more, with no items at all.
   */
  function FetchAll(store: Store, userId: string, publicTableName: string, privateTableName: string)
    : (r: Result<seq<Record>, string>)
    ensures r.Success? <==> store(BuildQuery(publicTableName, userId)).Success?
                            && store(BuildQuery(privateTableName, userId)).Success?
    ensures r.Success? ==> r.value == store(BuildQuery(publicTableName, userId)).value
                                      + store(BuildQuery(privateTableName, userId)).value
    ensures store(BuildQuery(publicTableName, userId)).Failure? ==>
              r == Failure(JoinError(TableError(publicTableName, store(BuildQuery(publicTableName, userId)).error)))
    ensures store(BuildQuery(publicTableName, userId)).Success? && store(BuildQuery(privateTableName, userId)).Failure? ==>
              r == Failure(JoinError(TableError(privateTableName, store(BuildQuery(privateTableName, userId)).error)))
  {
    var publicResult := QueryTable(store, publicTableName, userId);
    var privateResult := QueryTable(store, privateTableName, userId);
    match FirstFailure(publicResult, privateResult)
    case Some(inner) => Failure(JoinError(inner))
    case None => Success(publicResult.value + privateResult.value)
  }

  /**
   * `QueryTables`: issues the public and the private query (both, before awaiting either),
   * waits for both, and builds the combined list by appending the public items and then the
   * private items to an empty list. Returns the outcome and the queries it sent, in order.
   */
  method QueryTables(store: Store, userId: string, publicTableName: string, privateTableName: string)
    returns (results: Result<seq<Record>, string>, issued: seq<QueryRequest>)
    ensures issued == [BuildQuery(publicTableName, userId), BuildQuery(privateTableName, userId)]
    ensures results == FetchAll(store, userId, publicTableName, privateTableName)
  {
    var publicTask := QueryTable(store, publicTableName, userId);
    var privateTask := QueryTable(store, privateTableName, userId);
    issued := [BuildQuery(publicTableName, userId), BuildQuery(privateTableName, userId)];
    var failure := FirstFailure(publicTask, privateTask);
    if failure.Some? {
      return Failure(JoinError(failure.value)), issued;
    }
    var combinedResults: seq<Record> := [];
    combinedResults := combinedResults + publicTask.value;
    combinedResults := combinedResults + privateTask.value;
    assert combinedResults == publicTask.value + privateTask.value;
    results := Success(combinedResults);
  }
}
