/**
 * What a query sends: the variables payload of `variables()` and the shape
 * of the GraphQL query of `query()`, both decided by which settings are
 * present.
 */
module Requests {
  import opened Wrappers
  import opened Php
  import opened Filters

  datatype Sorter = Sorter(attribute: string, direction: string)

  datatype Paginator = Paginator(page: int, recordsPerPage: int)

  /** The array `variables()` returns: each key either present or absent. */
  datatype Variables = Variables(search: Option<Search>, sorter: Option<Sorter>, paginator: Option<Paginator>)

  /** The keys of a variables payload, in the order `variables()` adds them. */
  function Keys(v: Variables): seq<string> {
    (if v.search.Some? then ["search"] else [])
    + (if v.sorter.Some? then ["sorter"] else [])
    + (if v.paginator.Some? then ["paginator"] else [])
  }

  /**
   * `variables()` over the query's settings. `$this->where` always holds its
   * two bucket keys, so as a PHP array it is truthy and `search` is always
   * sent; `sorter` is sent when `$sortBy` is truthy and `paginator` once
   * `paginate()` has run.
   */
  function VariablesOf(where: Where, sortBy: Option<string>, sortOrder: string,
                       paginate: bool, currentPage: int, perPage: int): (v: Variables)
    requires SearchDefined(where)
    ensures v.search == Some(SearchOf(where))
    ensures v.sorter.Some? <==> Truthy(sortBy)
    ensures v.sorter.Some? ==> v.sorter.value == Sorter(sortBy.value, sortOrder)
    ensures v.paginator.Some? <==> paginate
    ensures v.paginator.Some? ==> v.paginator.value == Paginator(currentPage, perPage)
  {
    Variables(
      Some(SearchOf(where)),
      if Truthy(sortBy) then Some(Sorter(sortBy.value, sortOrder)) else None,
      if paginate then Some(Paginator(currentPage, perPage)) else None)
  }

  /** A declared query variable `$name: Type`. */
  datatype VariableDecl = VariableDecl(name: string, typeName: string)

  /** How an argument refers to its variable: inside a list (`['$search']`) or bare (`'$paginator'`). */
  datatype ArgumentValue = ListOf(reference: string) | Bare(reference: string)

  datatype Argument = Argument(name: string, value: ArgumentValue)

  /** A selected field: the resource's own selection set, or a sub-query with its fields. */
  datatype Selection = ResourceFields(selection: string) | SubQuery(name: string, fields: seq<string>)

  /** The query `QueryBuilder` renders, kept as its parts rather than as text. */
  datatype QueryShape = QueryShape(root: string, decls: seq<VariableDecl>, arguments: seq<Argument>, selections: seq<Selection>)

  const PageInfoSelection: Selection := SubQuery("page_info", ["records_per_page", "page", "total_count"])

  /**
   * `query()`: rooted at the object name, selecting the resource's fields,
   * with `search`, `sorter` and `paginator` declared and passed under the
   * same conditions as in `variables()`, and `page_info` selected only when
   * paginating.
   */
  function QueryOf(objectName: string, resourceFields: string, sortBy: Option<string>, paginate: bool): (q: QueryShape)
    ensures q.root == objectName
    ensures |q.selections| >= 1 && q.selections[0] == ResourceFields(resourceFields)
    ensures PageInfoSelection in q.selections <==> paginate
    ensures VariableDecl("search", "Search") in q.decls
    ensures VariableDecl("sorter", "Sorter") in q.decls <==> Truthy(sortBy)
    ensures VariableDecl("paginator", "Paginator") in q.decls <==> paginate
  {
    var search := ([VariableDecl("search", "Search")], [Argument("search", ListOf("$search"))]);
    var sorter := if Truthy(sortBy) then ([VariableDecl("sorter", "Sorter")], [Argument("sorter", ListOf("$sorter"))]) else ([], []);
    var paginator := if paginate then ([VariableDecl("paginator", "Paginator")], [Argument("paginator", Bare("$paginator"))]) else ([], []);
    QueryShape(
      objectName,
      search.0 + sorter.0 + paginator.0,
      search.1 + sorter.1 + paginator.1,
      [ResourceFields(resourceFields)] + (if paginate then [PageInfoSelection] else []))
  }

  /** The variable names a request uses, given whether it sorts and whether it paginates. */
  function SentNames(sorts: bool, paginates: bool): seq<string> {
    ["search"] + (if sorts then ["sorter"] else []) + (if paginates then ["paginator"] else [])
  }

  /**
   * `decls` and `arguments` name the variables `names`, in that order, and
   * each argument refers to its own `$` variable.
   */
  predicate NamesVariables(decls: seq<VariableDecl>, arguments: seq<Argument>, names: seq<string>) {
    && |decls| == |names| == |arguments|
    && forall i :: 0 <= i < |names| ==>
         && decls[i].name == names[i]
         && arguments[i].name == names[i]
         && arguments[i].value.reference == "$" + names[i]
  }

  /** Naming is compositional: the declarations and arguments of two parts, side by side. */
  lemma NamesVariablesConcat(d1: seq<VariableDecl>, a1: seq<Argument>, n1: seq<string>,
                             d2: seq<VariableDecl>, a2: seq<Argument>, n2: seq<string>)
    requires NamesVariables(d1, a1, n1) && NamesVariables(d2, a2, n2)
    ensures NamesVariables(d1 + d2, a1 + a2, n1 + n2)
  {
    forall i | 0 <= i < |n1 + n2|
      ensures (d1 + d2)[i].name == (n1 + n2)[i] && (a1 + a2)[i].name == (n1 + n2)[i]
      ensures (a1 + a2)[i].value.reference == "$" + (n1 + n2)[i]
    {
      if i >= |n1| {
        assert (n1 + n2)[i] == n2[i - |n1|];
      }
    }
  }

  /** The query declares, and passes as arguments, the names `SentNames` lists, in that order. */
  lemma QueryUsesSentNames(objectName: string, resourceFields: string, sortBy: Option<string>, paginate: bool)
    ensures var q := QueryOf(objectName, resourceFields, sortBy, paginate);
      NamesVariables(q.decls, q.arguments, SentNames(Truthy(sortBy), paginate))
  {
    var search := ([VariableDecl("search", "Search")], [Argument("search", ListOf("$search"))]);
    var sorter := if Truthy(sortBy) then ([VariableDecl("sorter", "Sorter")], [Argument("sorter", ListOf("$sorter"))]) else ([], []);
    var paginator := if paginate then ([VariableDecl("paginator", "Paginator")], [Argument("paginator", Bare("$paginator"))]) else ([], []);
    var sorterNames: seq<string> := if Truthy(sortBy) then ["sorter"] else [];
    var paginatorNames: seq<string> := if paginate then ["paginator"] else [];
    assert "$" + "search" == "$search";
    assert "$" + "sorter" == "$sorter";
    assert "$" + "paginator" == "$paginator";
    assert NamesVariables(search.0, search.1, ["search"]);
    assert NamesVariables(sorter.0, sorter.1, sorterNames);
    assert NamesVariables(paginator.0, paginator.1, paginatorNames);
    NamesVariablesConcat(search.0, search.1, ["search"], sorter.0, sorter.1, sorterNames);
    NamesVariablesConcat(search.0 + sorter.0, search.1 + sorter.1, ["search"] + sorterNames,
                         paginator.0, paginator.1, paginatorNames);
  }

  /**
   * The query declares, and passes as arguments, exactly the variables that
   * `variables()` sends, in the same order, each argument referring to its
   * own `$` variable.
   */
  lemma QueryDeclaresSentVariables(objectName: string, resourceFields: string, where: Where,
                                   sortBy: Option<string>, sortOrder: string,
                                   paginate: bool, currentPage: int, perPage: int)
    requires SearchDefined(where)
    ensures var q := QueryOf(objectName, resourceFields, sortBy, paginate);
      NamesVariables(q.decls, q.arguments, Keys(VariablesOf(where, sortBy, sortOrder, paginate, currentPage, perPage)))
  {
    var v := VariablesOf(where, sortBy, sortOrder, paginate, currentPage, perPage);
    assert Keys(v) == SentNames(Truthy(sortBy), paginate);
    QueryUsesSentNames(objectName, resourceFields, sortBy, paginate);
  }

  /** With no sort and no pagination set, only `search` is declared and sent, and `page_info` is not selected. */
  lemma DefaultRequest(objectName: string, resourceFields: string, currentPage: int, perPage: int)
    ensures VariablesOf(EmptyWhere, None, "ASC", false, currentPage, perPage)
      == Variables(Some(Buckets([], [])), None, None)
    ensures QueryOf(objectName, resourceFields, None, false)
      == QueryShape(objectName, [VariableDecl("search", "Search")],
                    [Argument("search", ListOf("$search"))], [ResourceFields(resourceFields)])
  {
    assert SearchOf(EmptyWhere) == Buckets([], []);
  }
}
