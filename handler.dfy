/**
 * The Lambda handler: validates the `userID` query parameter, fetches from both tables,
 * projects the merged items and chooses the response, with every failure turned into a
 * well-formed error response.
 */
module Handler {
  import opened Wrappers
  import opened Dynamo
  import opened Projection
  import opened Fetch

  const PublicTableName := "PublicExhibitions"
  const PrivateTableName := "PrivateExhibitions"

  const MissingUserIdMessage := "userID is missing or empty in the query parameters."
  const QueryErrorMessage := "An error occurred while querying the database."
  const UnexpectedErrorMessage := "An unexpected error occurred."
  /** The message of the .NET runtime's NullReferenceException. */
  const NullReferenceMessage := "Object reference not set to an instance of an object."

  /** The part of the HTTP API request the handler reads: the query string, null when there is none. */
  datatype Request = Request(queryStringParameters: Option<map<string, Option<string>>>)

  /** The JSON body of a response, as the object that gets serialized. */
  datatype Body =
    | Exhibitions(exhibitions: seq<Exhibition>)
    | Message(message: string)
    | MessageWithError(message: string, error: string)

  datatype Response = Response(statusCode: int, body: Body)

  /** A response together with the store queries that were sent while producing it, in order. */
  datatype Handled = Handled(response: Response, issued: seq<QueryRequest>)

  /** The outcome of reading `userID`: no query string at all, no usable value, or the identifier. */
  datatype Validation = NoQueryString | MissingUserId | UserId(id: string)

  /**
   * `TryGetValue("userID", ...)` followed by `string.IsNullOrEmpty`: the value must be present
   * and non-empty; nothing is trimmed, so an all-blank identifier passes.
   */
  function ValidateRequest(request: Request): (v: Validation)
    ensures v.NoQueryString? <==> request.queryStringParameters.None?
    ensures v.UserId? <==> request.queryStringParameters.Some?
                           && "userID" in request.queryStringParameters.value
                           && request.queryStringParameters.value["userID"].Some?
                           && request.queryStringParameters.value["userID"].value != ""
    ensures v.UserId? ==> request.queryStringParameters.value["userID"] == Some(v.id)
  {
    match request.queryStringParameters
    case None => NoQueryString
    case Some(parameters) =>
      if "userID" in parameters && parameters["userID"].Some? && parameters["userID"].value != "" then
        UserId(parameters["userID"].value)
      else
        MissingUserId
  }

  /** What the handler answers, and which queries it sends, for a request against a store. */
  function Respond(request: Request, store: Store): (h: Handled)
    ensures h.response.statusCode in {200, 400, 500}
    ensures h.response.statusCode == 400 <==> ValidateRequest(request).MissingUserId?
    ensures h.response.statusCode == 400 ==> h.response.body == Message(MissingUserIdMessage)
    ensures h.issued != [] <==> ValidateRequest(request).UserId?
    ensures h.response.statusCode == 200 <==>
              ValidateRequest(request).UserId?
              && FetchAll(store, ValidateRequest(request).id, PublicTableName, PrivateTableName).Success?
    ensures request.queryStringParameters.None? ==>
              h.response == Response(500, MessageWithError(UnexpectedErrorMessage, NullReferenceMessage))
  {
    match ValidateRequest(request)
    case NoQueryString =>
      // TryGetValue on the null dictionary throws; the outer catch answers.
      Handled(Response(500, MessageWithError(UnexpectedErrorMessage, NullReferenceMessage)), [])
    case MissingUserId =>
      Handled(Response(400, Message(MissingUserIdMessage)), [])
    case UserId(userId) =>
      var issued := [BuildQuery(PublicTableName, userId), BuildQuery(PrivateTableName, userId)];
      match FetchAll(store, userId, PublicTableName, PrivateTableName)
      case Failure(error) => Handled(Response(500, MessageWithError(QueryErrorMessage, error)), issued)
      case Success(results) => Handled(Response(200, Exhibitions(ProjectAll(results))), issued)
  }

  /** `FunctionHandler`: the early returns and the two catch blocks, in the handler's own order. */
  method FunctionHandler(request: Request, store: Store) returns (response: Response, issued: seq<QueryRequest>)
    ensures Handled(response, issued) == Respond(request, store)
  {
    var validation := ValidateRequest(request);
    if validation.NoQueryString? {
      return Response(500, MessageWithError(UnexpectedErrorMessage, NullReferenceMessage)), [];
    }
    if validation.MissingUserId? {
      return Response(400, Message(MissingUserIdMessage)), [];
    }
    var userId := validation.id;
    var results;
    results, issued := QueryTables(store, userId, PublicTableName, PrivateTableName);
    if results.Failure? {
      return Response(500, MessageWithError(QueryErrorMessage, results.error)), issued;
    }
    var transformedResults := ProjectAll(results.value);
    response := Response(200, Exhibitions(transformedResults));
  }

  /**
   * A valid request sends exactly two queries, public table first, both for the given
   * identifier, whatever the store answers.
   */
  lemma ValidRequestQueriesBothTables(request: Request, store: Store, userId: string)
    requires ValidateRequest(request) == UserId(userId)
    ensures |Respond(request, store).issued| == 2
    ensures Respond(request, store).issued[0].tableName == PublicTableName
    ensures Respond(request, store).issued[1].tableName == PrivateTableName
    ensures forall q :: q in Respond(request, store).issued ==> q.expressionAttributeValues[":userId"].S == Some(userId)
  {
  }

  /**
   * When both tables answer, the body lists the public exhibitions and then the private ones,
   * each projected, in the order the store returned them.
   */
  lemma SuccessListsPublicThenPrivate(request: Request, store: Store, userId: string)
    requires ValidateRequest(request) == UserId(userId)
    requires store(BuildQuery(PublicTableName, userId)).Success?
    requires store(BuildQuery(PrivateTableName, userId)).Success?
    ensures Respond(request, store).response == Response(200, Exhibitions(
              ProjectAll(store(BuildQuery(PublicTableName, userId)).value)
              + ProjectAll(store(BuildQuery(PrivateTableName, userId)).value)))
  {
    ProjectAllAppend(store(BuildQuery(PublicTableName, userId)).value, store(BuildQuery(PrivateTableName, userId)).value);
  }

  /**
   * A failing table query yields status 500 with the database message and the cause wrapped
   * twice, naming the table that failed; the public table is reported when both fail.
   */
  lemma QueryFailureReportsWrappedCause(request: Request, store: Store, userId: string, failed: string)
    requires ValidateRequest(request) == UserId(userId)
    requires failed == PublicTableName || failed == PrivateTableName
    requires store(BuildQuery(failed, userId)).Failure?
    requires failed == PrivateTableName ==> store(BuildQuery(PublicTableName, userId)).Success?
    ensures Respond(request, store).response == Response(500, MessageWithError(QueryErrorMessage,
              "Error in QueryTables: " + ("Error querying table " + failed + ": " + store(BuildQuery(failed, userId)).error)))
  {
    var cause := store(BuildQuery(failed, userId)).error;
    assert FetchAll(store, userId, PublicTableName, PrivateTableName) == Failure(JoinError(TableError(failed, cause)));
  }

  /** No query string, or no non-empty `userID`: an error response and no query at all. */
  lemma InvalidRequestSendsNoQuery(request: Request, store: Store)
    requires !ValidateRequest(request).UserId?
    ensures Respond(request, store).issued == []
    ensures Respond(request, store).response.statusCode == 400 || Respond(request, store).response.statusCode == 500
  {
  }

  /**
   * Without a valid identifier the store is never consulted: whatever it would answer, the
   * response and the (empty) list of queries are the same.
   */
  lemma InvalidRequestIgnoresStore(request: Request, s1: Store, s2: Store)
    requires !ValidateRequest(request).UserId?
    ensures Respond(request, s1) == Respond(request, s2)
  {
  }

  /** Any non-empty identifier, blanks included, is accepted as it is and queried in both tables. */
  lemma NonEmptyUserIdIsAccepted(id: string, store: Store)
    requires id != ""
    ensures ValidateRequest(Request(Some(map["userID" := Some(id)]))) == UserId(id)
    ensures Respond(Request(Some(map["userID" := Some(id)])), store).issued
              == [BuildQuery(PublicTableName, id), BuildQuery(PrivateTableName, id)]
  {
  }

  /** An identifier made of a blank is not rejected: it is queried like any other. */
  lemma BlankUserIdIsAccepted(store: Store)
    ensures Respond(Request(Some(map["userID" := Some(" ")])), store).issued
              == [BuildQuery(PublicTableName, " "), BuildQuery(PrivateTableName, " ")]
  {
    assert ValidateRequest(Request(Some(map["userID" := Some(" ")]))) == UserId(" ");
  }

  /** A query string without `userID` is answered with 400 and the fixed message. */
  lemma MissingUserIdScenario(store: Store)
    ensures Respond(Request(Some(map["page" := Some("2")])), store).response
              == Response(400, Message(MissingUserIdMessage))
  {
    assert ValidateRequest(Request(Some(map["page" := Some("2")]))) == MissingUserId;
  }

  /** A public item holding only an identifier and a name. */
  function SpringItem(): Record
  {
    map["ExhibitionID" := NumberValue("1"), "ExhibitionName" := StringValue("Spring")]
  }

  /** A store whose public table holds `SpringItem()` and whose private table is empty. */
  function SpringStore(q: QueryRequest): Result<seq<Record>, string>
  {
    if q.tableName == PublicTableName then Success([SpringItem()]) else Success([])
  }

  /**
   * One public exhibition with only an identifier and a name, no private ones: both appear
   * as given and every other field is null, including the content list.
   */
  lemma SingleExhibitionScenario()
    ensures Respond(Request(Some(map["userID" := Some("u1")])), SpringStore).response
              == Response(200, Exhibitions([Exhibition(Some("1"), Some("Spring"), None, None, None, None)]))
  {
    var request := Request(Some(map["userID" := Some("u1")]));
    assert ValidateRequest(request) == UserId("u1");
    var store: Store := SpringStore;
    assert store(BuildQuery(PublicTableName, "u1")) == Success([SpringItem()]);
    assert store(BuildQuery(PrivateTableName, "u1")).Success?;
    assert store(BuildQuery(PrivateTableName, "u1")).value == [];
    assert FetchAll(store, "u1", PublicTableName, PrivateTableName).value == [SpringItem()];
    assert ProjectExhibition(SpringItem()) == Exhibition(Some("1"), Some("Spring"), None, None, None, None);
    assert Respond(request, store).response == Response(200, Exhibitions(ProjectAll([SpringItem()])));
    assert ProjectAll([SpringItem()]) == [ProjectExhibition(SpringItem())];
    assert Respond(request, SpringStore) == Respond(request, store);
  }
}
