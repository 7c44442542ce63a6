/**
 * How a query decodes the response envelope: `get()`, `first()` and the
 * page `paginate()` builds. The envelope is keyed by the query's object
 * name and holds `entities` (a list, or null) and, when paginating,
 * `page_info`.
 */
module Responses {
  import opened Wrappers

  datatype PageInfo = PageInfo(recordsPerPage: int, page: int, totalCount: int)

  /** `$response->{objectName}`: the raw entities (or null) and the optional page metadata. */
  datatype Payload<R> = Payload(entities: Option<seq<R>>, pageInfo: Option<PageInfo>)

  /** The decoded response body, keyed by object name. */
  type Response<R> = map<string, Payload<R>>

  /** The `LengthAwarePaginator` as `paginate()` constructs it. */
  datatype Page<T> = Page(items: seq<T>, total: int, perPage: int, currentPage: int, path: string)

  /** `collect($entities)->map(fromJsonObject)`: null collects to the empty list. */
  function Collect<R, T>(entities: Option<seq<R>>, decode: R -> T): (r: seq<T>)
    ensures entities.None? ==> r == []
    ensures entities.Some? ==> |r| == |entities.value|
    ensures entities.Some? ==> forall i :: 0 <= i < |r| ==> r[i] == decode(entities.value[i])
  {
    match entities
    case None => []
    case Some(es) => seq(|es|, i requires 0 <= i < |es| => decode(es[i]))
  }

  /**
   * `get()` on a payload: `!$entities` holds for null and, PHP `![]` being
   * true, for the empty list, and both throw; otherwise every entity is
   * decoded, in order.
   */
  function GetResult<R, T>(payload: Payload<R>, decode: R -> T): (r: Result<seq<T>>)
    ensures r.Err? <==> payload.entities.None? || payload.entities.value == []
    ensures r.Err? ==> r.error == ResourceNotFound(NotFoundMessage)
    ensures r.Ok? ==> |r.value| == |payload.entities.value| > 0
    ensures r.Ok? ==> forall i :: 0 <= i < |r.value| ==> r.value[i] == decode(payload.entities.value[i])
  {
    if payload.entities.None? || payload.entities.value == [] then Err(ResourceNotFound(NotFoundMessage))
    else Ok(Collect(payload.entities, decode))
  }

  /** `first()`: the head of `get()`; it fails exactly when `get()` does, so also on zero results. */
  function FirstResult<R, T>(payload: Payload<R>, decode: R -> T): (r: Result<T>)
    ensures r.Err? <==> GetResult(payload, decode).Err?
    ensures r.Err? ==> r.error == ResourceNotFound(NotFoundMessage)
    ensures r.Ok? ==> r.value == decode(payload.entities.value[0])
  {
    match GetResult(payload, decode)
    case Err(e) => Err(e)
    case Ok(items) => Ok(items[0])
  }

  /**
   * The page `paginate()` returns: the decoded entities (none for null), the
   * total from `page_info.total_count`, and `perPage`, `currentPage` and
   * `path` echoed from the call rather than read from the response.
   */
  function PageResult<R, T>(payload: Payload<R>, decode: R -> T, perPage: int, currentPage: int, path: string): (p: Page<T>)
    requires payload.pageInfo.Some?
    ensures payload.entities.None? ==> p.items == []
    ensures payload.entities.Some? ==> |p.items| == |payload.entities.value|
    ensures payload.entities.Some? ==> forall i :: 0 <= i < |p.items| ==> p.items[i] == decode(payload.entities.value[i])
    ensures p.total == payload.pageInfo.value.totalCount
    ensures p.perPage == perPage && p.currentPage == currentPage && p.path == path
  {
    Page(Collect(payload.entities, decode), payload.pageInfo.value.totalCount, perPage, currentPage, path)
  }

  /** The envelope a paginated query needs: the object's key and its `page_info`. */
  predicate Answers<R>(response: Response<R>, objectName: string) {
    objectName in response && response[objectName].pageInfo.Some?
  }

  /**
   * `get()` and `paginate()` decode alike: wherever `get()` succeeds, the
   * page holds the same resources; where it fails because the list is
   * empty or null, the page is empty instead.
   */
  lemma PageAgreesWithGet<R, T>(payload: Payload<R>, decode: R -> T, perPage: int, currentPage: int, path: string)
    requires payload.pageInfo.Some?
    ensures GetResult(payload, decode).Ok? ==> PageResult(payload, decode, perPage, currentPage, path).items == GetResult(payload, decode).value
    ensures GetResult(payload, decode).Err? ==> PageResult(payload, decode, perPage, currentPage, path).items == []
  {
  }

  /** `get()` treats an empty entity list like null: both are "not found". */
  lemma EmptyListIsNotFound<R, T>(pageInfo: Option<PageInfo>, decode: R -> T)
    ensures GetResult(Payload(Some([]), pageInfo), decode) == Err(ResourceNotFound(NotFoundMessage))
    ensures GetResult(Payload(None, pageInfo), decode) == Err(ResourceNotFound(NotFoundMessage))
    ensures FirstResult(Payload(Some([]), pageInfo), decode) == Err(ResourceNotFound(NotFoundMessage))
  {
  }

  /** `paginate(5, 2, '/tickets')` on five entities out of 17: five items, total 17, page 2 of size 5. */
  lemma FivePerPageExample<R, T>(entities: seq<R>, decode: R -> T)
    requires |entities| == 5
    ensures var p := PageResult(Payload(Some(entities), Some(PageInfo(5, 2, 17))), decode, 5, 2, "/tickets");
      |p.items| == 5 && p.total == 17 && p.currentPage == 2 && p.perPage == 5 && p.path == "/tickets"
  {
  }
}
