/**
 * The ticket list request of the ticket controller, run against the
 * `BaseQuery` class: four `where` calls, a descending sort and a page of
 * five, and what is then sent and returned.
 */
module TicketList {
  import opened Wrappers
  import opened Php
  import opened Filters
  import opened Requests
  import opened Responses
  import opened Queries
  import opened Scenarios

  /** The variables the ticket list sends for page `page`. */
  function TicketListVariables(account: int, child: int, status: string, page: int): Variables {
    Variables(
      Some(Buckets(
        [IntEntry("ticketableId", VInt(account), EQ), IntEntry("ticketableId", VInt(child), EQ)],
        [StrEntry("ticketableType", VStr("Account"), true),
         StrEntry("inboundMailboxId", VNull, false),
         StrEntry("status", StatusValue(status), status != "OPEN")])),
      Some(Sorter("updatedAt", "DESC")),
      Some(Paginator(page, 5)))
  }

  /** The controller's four `where` calls on a fresh query leave the ticket list's `$where`. */
  method ApplyTicketListFilters<R, T>(q: BaseQuery<R, T>, account: int, child: int, status: string)
    requires q.Valid() && q.where == EmptyWhere
    modifies q`where
    ensures q.Valid() && q.where == TicketListWhere(account, child, status)
  {
    var calls := TicketListCalls(account, child, status);
    for i := 0 to 4
      invariant q.Valid()
      invariant q.where == TicketListState(account, child, status, i)
    {
      TicketListStep(account, child, status, i);
      var _ := q.Where(calls[i].field, calls[i].args);
    }
  }

  /** Sorting by `updatedAt` descending and paginating by five, the ticket list sends its three variables. */
  lemma TicketListSent(account: int, child: int, status: string, page: int)
    ensures SearchDefined(TicketListWhere(account, child, status))
    ensures VariablesOf(TicketListWhere(account, child, status), Some("updatedAt"), "DESC", true, page, 5)
         == TicketListVariables(account, child, status, page)
  {
    TicketListSearch(account, child, status);
  }

  /** A sorted, paginated query declares `search`, `sorter` and `paginator`, in that order. */
  lemma SortedPageDecls(objectName: string, resourceFields: string, attribute: string)
    requires attribute != "" && attribute != "0"
    ensures QueryOf(objectName, resourceFields, Some(attribute), true).decls
         == [VariableDecl("search", "Search"), VariableDecl("sorter", "Sorter"), VariableDecl("paginator", "Paginator")]
  {
  }

  /**
   * The controller's chain on a fresh query: the query then sends the search,
   * the sorter and the paginator, declares all three, selects `page_info`,
   * and the page echoes the page size, page number and path it was given.
   */
  method TicketListPage<R, T>(q: BaseQuery<R, T>, account: int, child: int, status: string, page: int, path: string)
    returns (p: Page<T>)
    requires q.Valid() && q.where == EmptyWhere && q.sortBy == None && !q.paginate
    requires Answers(q.client(QueryOf(q.objectName, q.resourceFields, Some("updatedAt"), true),
                              TicketListVariables(account, child, status, page)), q.objectName)
    modifies q
    ensures q.where == TicketListWhere(account, child, status) && SearchDefined(q.where)
    ensures q.Variables() == TicketListVariables(account, child, status, page)
    ensures q.Query().decls == [VariableDecl("search", "Search"), VariableDecl("sorter", "Sorter"),
                                VariableDecl("paginator", "Paginator")]
    ensures PageInfoSelection in q.Query().selections
    ensures p.perPage == 5 && p.currentPage == page && p.path == path
    ensures p.total == q.client(q.Query(), q.Variables())[q.objectName].pageInfo.value.totalCount
  {
    ApplyTicketListFilters(q, account, child, status);
    var _ := q.SortBy("updatedAt", "DESC");
    UpperDirections();
    TicketListSent(account, child, status, page);
    SortedPageDecls(q.objectName, q.resourceFields, "updatedAt");
    p := q.Paginate(5, page, path);
  }
}
