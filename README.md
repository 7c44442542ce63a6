# Sonar GraphQL query builder (`BaseQuery`) in Dafny

This project models `BaseQuery`, the abstract base class of the customer
portal's Sonar API queries, and proves properties of it. A query
object collects filters (`where`), a sort (`sortBy`, `sortOrder`) and
pagination (`paginate`). It renders them as the `search`, `sorter` and
`paginator` variables of a GraphQL request (`variables()`,
`buildSearchFromWhere()`) and as the request's query shape (`query()`).
It decodes the response envelope keyed by its object name into resources
(`get()`, `first()`) or into a page (`paginate()`).

Modules:

- `Wrappers`: `Option`, `Result` and the two exceptions, with their messages.
- `Php`: the PHP values a filter carries, plus the bits of PHP semantics the class relies on:
  - `is_int`;
  - truthiness of `?string`;
  - ASCII `strtoupper`;
  - PHP 8's loose `$operator == '='`.
- `Filters`: the filter state and the search payload.
  - `Buckets` is the two-key shape (`integer_fields`, `string_fields`) that both share.
  - `$where` is two insertion-ordered buckets of `field => [values1, op1, values2, op2, ...]`.
  - What one `where` call does to that state (`Applied`, `AddClause`, `Append`).
  - The `search` payload built from it (`SearchOf`).
  - Lemmas about both.
- `Requests`: `variables()` as a record of three optional parts, and `query()` as an abstract shape (declared variables, arguments and selections).
- `Responses`: how `get()`, `first()` and `paginate()` decode a payload.
- `Queries`: the class `BaseQuery<R, T>`.
  - It has the source's mutable fields.
  - Its setters are methods with `modifies` clauses.
  - `buildSearchFromWhere()` is a method with the source's nested loops, proved equal to `SearchOf`.
  - `variables()`, `query()`, `get()` and `first()` are functions of the current state.
- `Scenarios`: fluent `where` chains (`Chain`) and general lemmas about them.
  - Also the filter chains of the ticket list and of the single-ticket lookup in `app/Http/Controllers/TicketController.php`, used as concrete inputs.
- `TicketList`: the ticket list's whole call sequence run against the class, from `where` to `paginate`.

The model follows the code where a plainer description of the class says otherwise:

- `search` is always sent and always declared. `$where` starts with its two bucket keys, so it is a truthy PHP array even with no filter.
- A second `where` on a field that the chosen bucket already holds is stored but never sent. `buildSearchFromWhere()` reads only elements 0 and 1 of each field's list.
- The bucket is chosen on every call, from that call's first value. One field name can therefore sit in both buckets.
- `get()` throws "Resource(s) not found." on an empty entity list as well as on null, because `![]` is true in PHP. `first()` therefore also throws on zero results.
- A `where` with any number of extra arguments other than one or two throws before `$where` changes. That includes three.

## Model

| member | source | states |
|---|---|---|
| Filters.Dispatch | app/SonarApi/Queries/BaseQuery.php:112-120 | One extra argument gives operator "=" and that value; two give operator and value in that order; any other count is the InvalidArgument error with the arity message |
| Filters.Normalize | app/SonarApi/Queries/BaseQuery.php:122-124 | A scalar value becomes the one-element list holding it; a list is kept as is |
| Filters.KindOf | app/SonarApi/Queries/BaseQuery.php:126 | The call goes to `integer_fields` exactly when its first value is an int (bools, null and strings go to `string_fields`) |
| Filters.Append | app/SonarApi/Queries/BaseQuery.php:128-131 | The bucket's keys are unchanged when the field is present, else the field is added as the last key; a new field holds exactly the appended items |
| Filters.AppendInPlace | app/SonarApi/Queries/BaseQuery.php:128-131 | On a bucket with distinct keys, only the field's own list changes, growing by the items at its end; every other key keeps its list |
| Filters.AppendLookup | app/SonarApi/Queries/BaseQuery.php:128-131 | `$bucket[$field] ?? []` afterwards is the old list followed by the items; the list under any other key is unchanged |
| Filters.AddClause | app/SonarApi/Queries/BaseQuery.php:126-131 | The bucket the first value chooses gets `[values, operator]` appended under the field; the other bucket is unchanged |
| Filters.AddClauseAppendsPair | app/SonarApi/Queries/BaseQuery.php:128-131 | After a call, the field's list in the chosen bucket is its old list plus exactly the two elements `[values, operator]`; other fields and the other bucket read as before |
| Filters.Applied | app/SonarApi/Queries/BaseQuery.php:110-131 | `where` fails exactly on a wrong arity, with the arity message; otherwise the state is that of adding `[values, operator]` as the arity dispatch picked them |
| Filters.AppliedNewField | app/SonarApi/Queries/BaseQuery.php:122-131 | A call on a field new to its bucket adds the field as that bucket's last key, holding `[values, operator]`; the other bucket is untouched |
| Filters.AddClauseWellFormed | app/SonarApi/Queries/BaseQuery.php:128-131 | A call keeps `$where` well formed: keys distinct in each bucket, each list an even-length, non-empty sequence of `[values, operator]` pairs whose value lists are non-empty |
| Filters.AppliedWellFormed | app/SonarApi/Queries/BaseQuery.php:110-131 | A successful `where` keeps `$where` well formed |
| Filters.IntOperator | app/SonarApi/Queries/BaseQuery.php:205-209 | An integer entry's operator is EQ exactly for "=" and NEQ exactly for "!=" |
| Filters.MakeEntry | app/SonarApi/Queries/BaseQuery.php:201-217 | The entry for one value carries the field and the value; in `integer_fields` it is an operator entry, EQ exactly for "="; in `string_fields` it is a match entry whose match is `$operator == '='` |
| Filters.ValueEntries | app/SonarApi/Queries/BaseQuery.php:201-220 | A clause emits exactly one entry per value, in the values' order |
| Filters.EntriesOfSnoc | app/SonarApi/Queries/BaseQuery.php:197-222 | Fields are serialised in bucket order: the entries of the first i+1 fields are those of the first i followed by field i's entries |
| Filters.SearchSize | app/SonarApi/Queries/BaseQuery.php:197-222 | A bucket's entry list is as long as the sum, over its fields, of the value counts of each field's FIRST clause |
| Filters.EntryKinds | app/SonarApi/Queries/BaseQuery.php:202-217 | Entries of `integer_fields` are all operator entries and those of `string_fields` all match entries |
| Filters.SecondWhereInvisible | app/SonarApi/Queries/BaseQuery.php:197-199 | A `where` on a field its bucket already holds leaves the search payload exactly as it was |
| Filters.NewFieldEntriesLast | app/SonarApi/Queries/BaseQuery.php:197-222 | A `where` on a field new to its bucket appends that clause's entries to the end of the bucket's entry list; the other bucket's entries are unchanged |
| Filters.AddClauseSearchDefined | app/SonarApi/Queries/BaseQuery.php:207-209 | `$where` stays serialisable after a call unless the call opens an integer field with an operator outside "=" and "!=" |
| Php.Upper | app/SonarApi/Queries/BaseQuery.php:105 | `strtoupper` keeps the length, turns each lower-case ASCII letter into its own upper-case letter (code point minus 32) and keeps every other character |
| Php.UpperIdempotent | app/SonarApi/Queries/BaseQuery.php:103-105 | Upper-casing an already stored direction changes nothing, so `sortOrder` with a stored direction is a no-op |
| Php.UpperDirections | app/SonarApi/Queries/BaseQuery.php:95-105 | "desc" and "DESC" are stored as "DESC"; "asc" and "Asc" as "ASC" |
| Requests.VariablesOf | app/SonarApi/Queries/BaseQuery.php:165-187 | `search` is always sent and is the serialised `$where`; `sorter` = {attribute, direction} is sent exactly when the sort attribute is truthy; `paginator` = {page, records_per_page} exactly when paginating |
| Requests.QueryOf | app/SonarApi/Queries/BaseQuery.php:136-163 | The query is rooted at the object name and selects the resource's fields first; it always declares `search`, declares `sorter` exactly when the sort attribute is truthy and `paginator` exactly when paginating; it selects `page_info` exactly when paginating |
| Requests.QueryUsesSentNames | app/SonarApi/Queries/BaseQuery.php:141-160 | The declared variables and the arguments are, in order, search, then sorter if sorting, then paginator if paginating; each argument refers to its own `$` variable |
| Requests.QueryDeclaresSentVariables | app/SonarApi/Queries/BaseQuery.php:136-187 | The query declares and passes exactly the variables `variables()` sends, in the same order |
| Requests.DefaultRequest | app/SonarApi/Queries/BaseQuery.php:14-23 | A fresh query sends only an empty `search` and declares only `search`, without selecting `page_info` |
| Responses.Collect | app/SonarApi/Queries/BaseQuery.php:61-62 | Decoding maps each entity through `fromJsonObject`, keeping length and order; null gives the empty list |
| Responses.GetResult | app/SonarApi/Queries/BaseQuery.php:53-63 | `get()` throws "Resource(s) not found." exactly when entities are null or empty; otherwise it returns one decoded resource per entity, same length, same order |
| Responses.FirstResult | app/SonarApi/Queries/BaseQuery.php:70-73 | `first()` fails exactly when `get()` does, with the same error, and otherwise returns the decoded first entity |
| Responses.PageResult | app/SonarApi/Queries/BaseQuery.php:79-93 | The page holds the decoded entities in order (none for null) and the total from `page_info.total_count`; it echoes `perPage`, `currentPage` and `path` from the call |
| Responses.PageAgreesWithGet | app/SonarApi/Queries/BaseQuery.php:53-93 | Where `get()` succeeds, the page holds the same resources; where it fails, the page is empty |
| Responses.EmptyListIsNotFound | app/SonarApi/Queries/BaseQuery.php:57-58 | An empty entity list is "not found" for `get()` and `first()`, as null is |
| Responses.FivePerPageExample | app/SonarApi/Queries/BaseQuery.php:90-92 | Five entities of 17 on page 2 give five items, total 17, page 2, five per page and the given path |
| Queries.BaseQuery.constructor | app/SonarApi/Queries/BaseQuery.php:14-34 | A new query has no sort attribute, direction "ASC", both buckets empty and pagination off |
| Queries.BaseQuery.Where | app/SonarApi/Queries/BaseQuery.php:110-134 | On a wrong arity it throws and `$where` is unchanged; otherwise `$where` becomes the `Applied` state and `$this` is returned; no other field changes; well-formedness is kept |
| Queries.BaseQuery.SortBy | app/SonarApi/Queries/BaseQuery.php:95-101 | Stores the attribute and the upper-cased direction and returns `$this`; pagination and filters are untouched |
| Queries.BaseQuery.SortOrder | app/SonarApi/Queries/BaseQuery.php:103-108 | Stores the upper-cased direction and returns `$this` |
| Queries.BaseQuery.Variables | app/SonarApi/Queries/BaseQuery.php:165-187 | On the object's current state: `search` is always the serialised `$where`; `sorter` is sent exactly when `$sortBy` is truthy, holding the attribute and the stored direction; `paginator` is sent exactly while pagination is on, holding the stored page and size, so a query once paginated keeps sending it |
| Queries.BaseQuery.Query | app/SonarApi/Queries/BaseQuery.php:136-163 | On the object's current state: rooted at the object name, selecting the resource's fields first, selecting `page_info` exactly while pagination is on, and declaring and passing search, then sorter if sorting, then paginator if paginating, each argument referring to its own `$` variable |
| Queries.BaseQuery.Get | app/SonarApi/Queries/BaseQuery.php:53-63 | The answer to the object's current `Query()` and `Variables()` decides the result: it throws "Resource(s) not found." exactly when the object's entities are null or empty, and otherwise returns one decoded resource per entity, in order |
| Queries.BaseQuery.First | app/SonarApi/Queries/BaseQuery.php:70-73 | Fails exactly when `Get()` fails, with the same error, and otherwise returns the first resource `Get()` returns |
| Queries.BaseQuery.BuildSearchFromWhere | app/SonarApi/Queries/BaseQuery.php:190-225 | The nested loops return exactly `SearchOf` of the current `$where` |
| Queries.BaseQuery.Paginate | app/SonarApi/Queries/BaseQuery.php:79-93 | For a non-zero page size, turns pagination on and records page and size, so the request carries `paginator` and selects `page_info`; returns the page built from the client's answer to that request |
| Scenarios.ChainFailsOnArity | app/SonarApi/Queries/BaseQuery.php:112-120 | A chain of `where` calls throws exactly when one of its calls has neither one nor two extra arguments, and the error is the arity error |
| Scenarios.ChainWellFormed | app/SonarApi/Queries/BaseQuery.php:128-133 | A successful chain keeps `$where` well formed |
| Scenarios.ChainThrough | app/SonarApi/Queries/BaseQuery.php:110-133 | Calls that each take the state one step further chain, through the returned `$this`, from the first state to the last |
| Scenarios.ChainNewField | app/SonarApi/Queries/BaseQuery.php:122-133 | A chain whose first call opens a new field continues from the state where that field is its bucket's last key |
| Scenarios.TicketListStep | app/Http/Controllers/TicketController.php:42-48 | Each of the ticket list's four `where` calls succeeds and takes `$where` to the next intermediate state |
| Scenarios.TicketListChain | app/Http/Controllers/TicketController.php:42-48 | The ticket list's four calls leave the account ids in `integer_fields` and type, mailbox and status in `string_fields`, in call order |
| Scenarios.TicketListIntEntries | app/Http/Controllers/TicketController.php:42-45 | The ticket list sends both account ids as EQ entries |
| Scenarios.TicketListStrEntries | app/Http/Controllers/TicketController.php:46-48 | The ticket list sends 'Account' as a matching entry, the null mailbox as a non-matching entry, and the status as CLOSED non-matching when OPEN is asked for, else as the asked status matching |
| Scenarios.TicketListSearch | app/Http/Controllers/TicketController.php:42-48 | The whole search payload of the ticket list |
| Scenarios.TicketLookupStep | app/Http/Controllers/TicketController.php:218-224 | Each of the lookup's four `where` calls succeeds and takes `$where` to the next intermediate state |
| Scenarios.TicketLookupChain | app/Http/Controllers/TicketController.php:218-224 | The lookup puts `id` and then `ticketableId` in `integer_fields`, and type and mailbox in `string_fields` |
| Scenarios.TicketLookupIntEntries | app/Http/Controllers/TicketController.php:218-222 | The lookup sends the ticket id and both account ids as EQ entries, in that order |
| Scenarios.TicketLookupSearch | app/Http/Controllers/TicketController.php:218-224 | The lookup's integer entries, and two string entries |
| Scenarios.RepeatedFieldChain | app/SonarApi/Queries/BaseQuery.php:128-131 | `where('id', [1,2,3])` then `where('id', '!=', 4)` stores both pairs in one flat list under `id` |
| Scenarios.RepeatedFieldKeepsFirstClause | app/SonarApi/Queries/BaseQuery.php:197-199 | That state sends three EQ entries and no NEQ entry |
| Scenarios.BucketChosenPerCall | app/SonarApi/Queries/BaseQuery.php:126 | `where('id', 5)` then `where('id', 'x')` puts `id` in both buckets |
| Scenarios.BucketChosenPerCallSearch | app/SonarApi/Queries/BaseQuery.php:197-220 | That state sends one entry for `id` in each list |
| Scenarios.EqualsOnIntegerFieldIsEq | app/SonarApi/Queries/BaseQuery.php:202-210 | A new integer field with "=" appends one EQ entry per value, in order, after the entries already there |
| Scenarios.NotEqualsOnStringFieldNeverMatches | app/SonarApi/Queries/BaseQuery.php:211-216 | A new string field with "!=" appends one non-matching entry per value, in order, after the entries already there |
| TicketList.ApplyTicketListFilters | app/Http/Controllers/TicketController.php:42-48 | Running the four `where` calls on a fresh query leaves the ticket list's `$where` |
| TicketList.TicketListSent | app/Http/Controllers/TicketController.php:42-50 | With that `$where`, sort `updatedAt` DESC and five per page, the request sends the ticket list's search, sorter and paginator |
| TicketList.TicketListPage | app/Http/Controllers/TicketController.php:39-50 | The whole ticket list call sequence on a fresh query sends those variables and declares `search`, `sorter` and `paginator`. It selects `page_info`, and the page echoes five per page, the page number and the path, with the total from the answer |

## Left out

- `Client::query` (the HTTP transport and its exceptions) is a function-valued field of the query. It is given the query shape and the variables and returns the decoded response. Transport failures are not modelled.
- The text `GraphQL\QueryBuilder` renders is not modelled. `query()` is the abstract shape: root, declared variables, arguments and selections.
- `LengthAwarePaginator` internals are not modelled: last page, link generation, clamping of the page number, trimming of the path. The page records what the constructor is given.
- The abstract methods `objectName()` and `resource()` are constructor parameters. So are the resource's `fromJsonObject` and `graphQLQuery(true)[0]`: opaque values.
- Filter values are ints, strings, bools and null. Floats, nested arrays and objects are not modelled.
- PHP turns a numeric-string field name (`'5'`) into an integer array key, so `buildSearchFromWhere()` sends that entry's `attribute` as the JSON number 5 rather than the string "5". The model keeps every field name a string and does not capture this.
- The order of the JSON keys inside the `search` object is not modelled: `$data` lists `string_fields` before `integer_fields`. The two lists and their contents are.
- Queries.BaseQuery.Paginate: requires `perPage != 0`. With a zero page size the `LengthAwarePaginator` constructor divides the total by it and PHP 8 throws `DivisionByZeroError` after the request has been sent; that throw is not modelled (the paginator class is not part of this model). A negative page size does not throw and is kept.
- Failure modes the source leaves undefined become preconditions:
  - an empty value array (`$value[0]` undefined): `NonEmptyValue`;
  - an integer field whose first operator is neither "=" nor "!=": `SearchDefined`;
  - a response without the object's key or without `page_info`: `Answers`, and the `objectName in ...` requirement of `Get`/`First`.
- `with(...)` and the eager loading of ticket replies in the controller chains are not part of this model. They are not methods of `BaseQuery`.
- Scenarios.TicketListCalls: fixes the account's child accounts to exactly one child, `[account, child]`, where the controller spreads every child account's id after the account's own.
- Scenarios.TicketLookupCalls: fixes the account's child accounts to exactly one child in the same way, where the ticket lookup likewise spreads every child account's id after the account's own.
- Scenarios.TicketLookupSearch: states only the number of string entries (two), not their contents, which `TicketListStrEntries` states for the list.
- Executing one query object more than once is not modelled beyond `paginate` leaving pagination on for good.
