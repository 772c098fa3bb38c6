# GET-userExhibitions, modelled in Dafny

A model of the AWS Lambda handler behind `GET userExhibitions`. Given a `userID` query
parameter, the handler queries two DynamoDB tables (`PublicExhibitions` and
`PrivateExhibitions`) for that user's partition. It concatenates the items, public first,
projects every raw item into a response shape in which each field may be null, and answers
200, 400 or 500.

The model has five modules:

- `Wrappers` (`wrappers.dfy`): `Option` (a value that may be null) and `Result` (a value or an exception message).
- `Dynamo` (`dynamo.dfy`): the attribute values the handler reads (`N`, `S`, `L`, `M`, each optional) and items as `map<string, AttributeValue>`. It also holds the query request the handler builds, and the store, modelled as a total function from a query request to its items or a failure message.
- `Projection` (`projection.dfy`): the LINQ projection as pure functions.
  - A missing attribute, or one without the member that is read, becomes null.
  - `ExhibitionPublic` takes the number form before the string form.
  - `ExhibitContent` is null, not empty, when there is no list.
  - An inverse (`ExhibitionRecord`, `ContentAttribute`) stores a projected value as a raw item, and round-trip lemmas prove that projection undoes it.
- `Fetch` (`fetch.dfy`): `QueryTable`, with its error wrapping, and `QueryTables`, a method that sends both queries, joins them all-or-nothing and appends the public items and then the private items to an empty list. It is proved equal to the specification function `FetchAll`.
- `Handler` (`handler.dfy`): validation of `userID`, the specification function `Respond`, the method `FunctionHandler` proved equal to it, and lemmas about the outcomes.

Each handler run also returns the list of queries it sent. This makes "no query is sent for an invalid request" something the model can state.

`GET-userExhibitions/Function.cs:21` uses `string.IsNullOrEmpty`, so nothing is trimmed and a
blank identifier is accepted and queried (`Handler.NonEmptyUserIdIsAccepted`,
`Handler.BlankUserIdIsAccepted`). A request without any query string fails at that line with a
null dereference. The outer catch then answers 500 "An unexpected error occurred.", not 400.

When both queries fail, the public table's message is reported. Awaiting the joined task
rethrows the first inner exception in task order, and the public task is first.

## Model

| member | source | states |
|---|---|---|
| `Projection.GetN` | GET-userExhibitions/Function.cs:55-59 | the number read from an attribute is null exactly when the key is missing or the attribute has no `N`; otherwise it is the stored string, unchanged |
| `Projection.GetS` | GET-userExhibitions/Function.cs:56-58 | the string read from an attribute is null exactly when the key is missing or the attribute has no `S`; otherwise it is the stored string, unchanged |
| `Projection.Select` | GET-userExhibitions/Function.cs:53-75 | LINQ `Select` keeps the length, and its i-th result is the function applied to the i-th element |
| `Projection.ProjectContent` | GET-userExhibitions/Function.cs:60-74 | an entry without a map projects to the all-null item; otherwise each of the eleven fields reads its own attribute, `N` for CreationDate and ItemID and `S` for the other nine |
| `Projection.PublicFlag` | GET-userExhibitions/Function.cs:59 | `ExhibitionPublic` is the attribute's `N` when it has one, otherwise its `S`, and null when the attribute is missing; neither form is converted into the other |
| `Projection.ContentList` | GET-userExhibitions/Function.cs:60-74 | the content list is null exactly when the attribute or its `L` is missing, so it is never turned into an empty list; otherwise it has one projected entry per list element, in order |
| `Projection.ProjectExhibition` | GET-userExhibitions/Function.cs:54-60 | ExhibitionID and ExhibitionLength are null exactly when their attribute lacks `N`, and ExhibitionName and ExhibitionImage exactly when theirs lacks `S`; present values pass through unchanged |
| `Projection.ProjectAll` | GET-userExhibitions/Function.cs:53-75 | the projected list has as many entries as the merged items, and its i-th entry is the projection of the i-th item |
| `Projection.ProjectAllAppend` | GET-userExhibitions/Function.cs:53-75 | projecting public items followed by private items gives the projected public items followed by the projected private items |
| `Projection.ContentFieldRoundTrip` | GET-userExhibitions/Function.cs:62-72 | an attribute stored in its expected form reads back as the value stored |
| `Projection.ContentRoundTrip` | GET-userExhibitions/Function.cs:60-74 | projecting a content entry stored with its fields in their expected forms gives back the same entry |
| `Projection.ExhibitionRoundTrip` | GET-userExhibitions/Function.cs:53-75 | projecting a record whose present attributes are all in their expected form gives back every value unchanged, including null content lists and nested entries |
| `Projection.ExhibitionFieldRoundTrip` | GET-userExhibitions/Function.cs:55-59 | each single-valued exhibition attribute stored in its expected form reads back as its field; the visibility flag, stored as a number, has no string form to fall back on |
| `Dynamo.BuildQuery` | GET-userExhibitions/Function.cs:122-131 | the query names the table, matches `PK = :userId` with the identifier as a string, and asks for descending order |
| `Fetch.TableError` | GET-userExhibitions/Function.cs:136-139 | a table failure message starts with "Error querying table ", then the table name and ": ", and ends with the cause |
| `Fetch.JoinError` | GET-userExhibitions/Function.cs:112-115 | a join failure message is "Error in QueryTables: " followed by the inner message unchanged |
| `Fetch.QueryTable` | GET-userExhibitions/Function.cs:118-140 | a successful query returns the store's items as they are; a failed one fails with the cause wrapped in the table message |
| `Fetch.FirstFailure` | GET-userExhibitions/Function.cs:104 | the join fails exactly when one of the two queries fails, and reports the public failure before the private one |
| `Fetch.FetchAll` | GET-userExhibitions/Function.cs:99-115 | the fetch succeeds exactly when both queries succeed, with the public items followed by the private items; otherwise it returns no items and the failing cause wrapped twice |
| `Fetch.QueryTables` | GET-userExhibitions/Function.cs:95-116 | sends the public query and then the private query, and returns exactly what `FetchAll` specifies |
| `Handler.ValidateRequest` | GET-userExhibitions/Function.cs:21 | a null query string is told apart; otherwise the identifier is accepted exactly when `userID` is present, not null and not empty, with no trimming |
| `Handler.Respond` | GET-userExhibitions/Function.cs:19-92 | the status is 200, 400 or 500. It is 400, with the fixed message, exactly when `userID` is missing or empty. Queries are sent exactly when the identifier is valid. It is 200 exactly when both queries succeed. A null query string gives 500 "An unexpected error occurred." |
| `Handler.FunctionHandler` | GET-userExhibitions/Function.cs:14-93 | the handler's early returns and catch blocks produce exactly the response and queries `Respond` specifies |
| `Handler.ValidRequestQueriesBothTables` | GET-userExhibitions/Function.cs:33-39 | a valid request sends two queries, public table first, both for the given identifier |
| `Handler.SuccessListsPublicThenPrivate` | GET-userExhibitions/Function.cs:53-81 | when both tables answer, the response is 200 with the projected public exhibitions followed by the projected private ones |
| `Handler.QueryFailureReportsWrappedCause` | GET-userExhibitions/Function.cs:42-50 | a failed query gives 500 "An error occurred while querying the database." with error "Error in QueryTables: Error querying table <table>: <cause>", naming the public table when both fail |
| `Handler.InvalidRequestSendsNoQuery` | GET-userExhibitions/Function.cs:21-29 | a request without a valid identifier sends no query and is answered with 400 or 500 |
| `Handler.InvalidRequestIgnoresStore` | GET-userExhibitions/Function.cs:21-29 | without a valid identifier the response and the query list are the same whatever the store would answer, so the store is never consulted |
| `Handler.NonEmptyUserIdIsAccepted` | GET-userExhibitions/Function.cs:21 | every non-empty `userID`, blanks included, is accepted unchanged and queried in both tables |
| `Handler.BlankUserIdIsAccepted` | GET-userExhibitions/Function.cs:21 | a `userID` of a single blank is not rejected; both tables are queried with it |
| `Handler.MissingUserIdScenario` | GET-userExhibitions/Function.cs:21-29 | a query string without `userID` is answered 400 "userID is missing or empty in the query parameters." |
| `Handler.SingleExhibitionScenario` | GET-userExhibitions/Function.cs:53-81 | one public item with only an ID and a name, and no private items, gives 200 with that exhibition and every other field null, including the content list |

## Left out

- The DynamoDB client and `QueryAsync` (network I/O). The store is an input function from the query request to its items or a failure message. The store decides which items match and in what order, and the model does not re-sort them.
- Pagination: the source reads only the first page of each query (it never follows `LastEvaluatedKey`). The model takes whatever that one page holds as the store's answer.
- The concurrency of the two queries (`Task.WhenAll`). Only the join's result is kept: all-or-nothing, in task order.
- A failure to construct the DynamoDB client (line 97, outside the `try` of `QueryTables`). That would reach the handler's query catch unwrapped. The model assumes construction succeeds.
- Logging through the Lambda context logger. It has no effect on the response.
- JSON serialization of the bodies and the Lambda serializer attribute. Bodies are structured values, so a serializer failure is not modelled.
- Stack traces and exception types. Only messages are kept.
- A null request object. It would fail at line 21 like a null query string.
- Null attribute values stored inside an item or inside a content map. The SDK does not produce them.
- Attribute kinds the handler never reads (BOOL, NULL, sets, binary).
- Some SDK versions construct `L` and `M` as empty collections instead of null. The model leaves that choice to the input: an attribute whose `L` is present but empty stands for it.
