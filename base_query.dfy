/**
 * `BaseQuery`: the fluent, stateful query object. Its setters update the
 * filter, sort and pagination fields in place; `variables()` and `query()`
 * render them; `get()`, `first()` and `paginate()` send them through the
 * client and decode the answer.
 */
module Queries {
  import opened Wrappers
  import opened Php
  import opened Filters
  import opened Requests
  import opened Responses

  /**
   * The transport: `$client->query($this)` sends the query and its variables
   * and returns the decoded response body.
   */
  type Client<R> = (QueryShape, Variables) -> Response<R>

  /**
   * A query over raw entities of type `R` decoded into resources of type `T`.
   * What a concrete query class supplies through its abstract methods (the
   * object name, the resource's selection set and its `fromJsonObject`) is
   * given to the constructor.
   */
  class BaseQuery<R, T> {
    var sortBy: Option<string>
    var sortOrder: string
    var where: Where
    var paginate: bool
    var paginateCurrentPage: int
    var paginatePerPage: int

    const client: Client<R>
    /** `objectName()`: the query's root field and the response envelope's key. */
    const objectName: string
    /** `resource()::graphQLQuery(true)[0]`: the resource's selection set. */
    const resourceFields: string
    /** `resource()::fromJsonObject`. */
    const fromJsonObject: R -> T

    ghost predicate Valid()
      reads this
    {
      WellFormed(where)
    }

    constructor (client: Client<R>, objectName: string, resourceFields: string, fromJsonObject: R -> T)
      ensures Valid()
      ensures sortBy == None && sortOrder == "ASC"
      ensures where == EmptyWhere && !paginate
      ensures this.client == client && this.objectName == objectName
      ensures this.resourceFields == resourceFields && this.fromJsonObject == fromJsonObject
    {
      this.client := client;
      this.objectName := objectName;
      this.resourceFields := resourceFields;
      this.fromJsonObject := fromJsonObject;
      sortBy := None;
      sortOrder := "ASC";
      where := EmptyWhere;
      paginate := false;
    }

    /**
     * `where($field, ...$args)`: picks operator and value by arity, wraps a
     * scalar value, chooses the bucket from the first value, and appends
     * `[values, operator]` to the field's list there. Any other arity throws
     * before `$where` is touched. Returns `$this`.
     */
    method Where(field: string, args: seq<Arg>) returns (r: Result<BaseQuery<R, T>>)
      requires Valid()
      requires NonEmptyValue(args)
      modifies this`where
      ensures Valid()
      ensures Applied(old(where), field, args).Err? ==>
        r == Err(InvalidArgument(ArityMessage)) && where == old(where)
      ensures Applied(old(where), field, args).Ok? ==>
        r == Ok(this) && where == Applied(old(where), field, args).value
    {
      var operator: Arg;
      var value: Arg;
      if |args| == 1 {
        operator := Scalar(VStr("="));
        value := args[0];
      } else if |args| == 2 {
        operator := args[0];
        value := args[1];
      } else {
        return Err(InvalidArgument(ArityMessage));
      }

      var values := if value.List? then value.items else [value.v];
      var fieldType := if IsInt(values[0]) then IntegerFields else StringFields;
      AddClauseWellFormed(where, field, values, operator);
      where := where.With(fieldType, Append(where.Of(fieldType), field, [List(values), operator]));
      return Ok(this);
    }

    /** `sortBy($sortBy, $sortOrder = 'ASC')`: stores the attribute and the upper-cased direction. */
    method SortBy(attribute: string, direction: string := "ASC") returns (r: BaseQuery<R, T>)
      modifies this`sortBy, this`sortOrder
      ensures sortBy == Some(attribute) && sortOrder == Upper(direction)
      ensures r == this
    {
      sortBy := Some(attribute);
      r := SortOrder(direction);
    }

    /** `sortOrder($sortOrder)`: stores the direction upper-cased. */
    method SortOrder(direction: string) returns (r: BaseQuery<R, T>)
      modifies this`sortOrder
      ensures sortOrder == Upper(direction)
      ensures r == this
    {
      sortOrder := Upper(direction);
      r := this;
    }

    /**
     * `variables()` over the current state: `search` always, `sorter` when
     * `$sortBy` is truthy, `paginator` once `paginate()` has run.
     */
    function Variables(): (v: Requests.Variables)
      reads this
      requires SearchDefined(where)
      ensures v.search == Some(SearchOf(where))
      ensures v.sorter.Some? <==> Truthy(sortBy)
      ensures v.sorter.Some? ==> v.sorter.value == Sorter(sortBy.value, sortOrder)
      ensures v.paginator.Some? <==> paginate
      ensures v.paginator.Some? ==> v.paginator.value == Paginator(paginateCurrentPage, paginatePerPage)
    {
      VariablesOf(where, sortBy, sortOrder, paginate, paginateCurrentPage, paginatePerPage)
    }

    /**
     * `query()` over the current state: rooted at the object name, selecting
     * the resource's fields, declaring and passing the variables `variables()`
     * sends, and selecting `page_info` only when paginating.
     */
    function Query(): (q: QueryShape)
      reads this
      ensures q.root == objectName
      ensures |q.selections| >= 1 && q.selections[0] == ResourceFields(resourceFields)
      ensures PageInfoSelection in q.selections <==> paginate
      ensures NamesVariables(q.decls, q.arguments, SentNames(Truthy(sortBy), paginate))
    {
      QueryUsesSentNames(objectName, resourceFields, sortBy, paginate);
      QueryOf(objectName, resourceFields, sortBy, paginate)
    }

    /**
     * `get()`: sends the current `Query()` and `Variables()` through the
     * client; throws when the object's entities are null or empty, and
     * otherwise decodes every entity, in order.
     */
    function Get(): (r: Result<seq<T>>)
      reads this
      requires SearchDefined(where)
      requires objectName in client(Query(), Variables())
      ensures var p := client(Query(), Variables())[objectName];
        r.Err? <==> p.entities.None? || p.entities.value == []
      ensures r.Err? ==> r.error == ResourceNotFound(NotFoundMessage)
      ensures var p := client(Query(), Variables())[objectName];
        r.Ok? ==> |r.value| == |p.entities.value| > 0
      ensures var p := client(Query(), Variables())[objectName];
        r.Ok? ==> forall i :: 0 <= i < |r.value| ==> r.value[i] == fromJsonObject(p.entities.value[i])
    {
      GetResult(client(Query(), Variables())[objectName], fromJsonObject)
    }

    /** `first()`: the head of `get()`, failing exactly when `get()` does. */
    function First(): (r: Result<T>)
      reads this
      requires SearchDefined(where)
      requires objectName in client(Query(), Variables())
      ensures r.Err? <==> Get().Err?
      ensures r.Err? ==> r.error == ResourceNotFound(NotFoundMessage)
      ensures r.Ok? ==> r.value == Get().value[0]
    {
      FirstResult(client(Query(), Variables())[objectName], fromJsonObject)
    }

    /**
     * `buildSearchFromWhere()`: for every bucket, every field, and every value
     * of the field's first clause, appends one entry to the bucket's list.
     */
    method BuildSearchFromWhere() returns (data: Search)
      requires SearchDefined(where)
      ensures data == SearchOf(where)
    {
      data := Buckets([], []);
      for t := 0 to 2
        invariant t >= 1 ==> data.integerFields == EntriesOf(IntegerFields, where.integerFields)
        invariant t < 1 ==> data.integerFields == []
        invariant t >= 2 ==> data.stringFields == EntriesOf(StringFields, where.stringFields)
        invariant t < 2 ==> data.stringFields == []
      {
        var kind := if t == 0 then IntegerFields else StringFields;
        var fieldValues := where.Of(kind);
        ghost var before := data;
        assert data.Of(kind) == [];
        for i := 0 to |fieldValues|
          invariant data == before.With(kind, EntriesOf(kind, fieldValues[..i]))
        {
          var field := fieldValues[i].name;
          var values := fieldValues[i].stored[0].items;
          var operator := fieldValues[i].stored[1];
          assert Serializable(kind, fieldValues[i]);
          ghost var done := EntriesOf(kind, fieldValues[..i]);
          assert done + ValueEntries(kind, field, values[..0], operator) == done;
          for j := 0 to |values|
            invariant data == before.With(kind, done + ValueEntries(kind, field, values[..j], operator))
          {
            var search;
            if kind == IntegerFields {
              search := IntEntry(field, values[j], IntOperator(operator));
            } else {
              search := StrEntry(field, values[j], LooselyEqualsEq(operator));
            }
            assert search == MakeEntry(kind, field, values[j], operator);
            ValueEntriesSnoc(kind, field, values, operator, j);
            assert data.Of(kind) + [search] == done + ValueEntries(kind, field, values[..j + 1], operator);
            data := data.With(kind, data.Of(kind) + [search]);
          }
          assert values[..|values|] == values;
          EntriesOfSnoc(kind, fieldValues, i);
        }
        assert fieldValues[..|fieldValues|] == fieldValues;
      }
    }

    /**
     * `paginate($perPage = 25, $currentPage = 1, $path = '/')`: turns
     * pagination on (for good: nothing turns it off), records the page and
     * its size, sends the query and builds the page from the answer.
     */
    method Paginate(perPage: int := 25, currentPage: int := 1, path: string := "/") returns (page: Page<T>)
      requires perPage != 0
      requires SearchDefined(where)
      requires Answers(client(QueryOf(objectName, resourceFields, sortBy, true),
                              VariablesOf(where, sortBy, sortOrder, true, currentPage, perPage)), objectName)
      modifies this`paginate, this`paginatePerPage, this`paginateCurrentPage
      ensures paginate && paginatePerPage == perPage && paginateCurrentPage == currentPage
      ensures Variables().paginator == Some(Paginator(currentPage, perPage))
      ensures PageInfoSelection in Query().selections
      ensures page == PageResult(client(Query(), Variables())[objectName], fromJsonObject, perPage, currentPage, path)
    {
      paginate := true;
      paginatePerPage := perPage;
      paginateCurrentPage := currentPage;

      var response := client(Query(), Variables());
      var payload := response[objectName];
      var entities := Collect(payload.entities, fromJsonObject);
      page := Page(entities, payload.pageInfo.value.totalCount, perPage, currentPage, path);
    }
  }
}
