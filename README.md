# Air-quality list endpoint: query building and pagination

This project models the list endpoint `GET /api/air-quality` of the
air-quality service (`get_air_quality` in `app.py`) and proves what its
query building and pagination do. The endpoint reads a page number, a page
size and five optional filters: `city`, `min_aqi`, `max_aqi`, `start_date`
and `end_date`. It does the following:

- It builds a list of SQL predicate templates and a parallel list of bound
  values. Each supplied filter adds one of each, in a fixed order.
- It joins the templates into a `WHERE` clause.
- It sends a counting statement and a page statement with
  `LIMIT ? OFFSET ?` to SQLite.
- It answers with the page of rows, a pagination block and the filters it
  applied.

Modules:

- `Wrappers` (`wrappers.dfy`): `Option` and `Result`.
- `Filters` (`filters.dfy`): the filter builder and the `WHERE` clause. The
  builder is an imperative method. It mirrors the five `if … append` blocks
  as five calls of one append step.
- `Pagination` (`pagination.dfy`): the limit clamp, the offset, Python's
  floor division, the page count, and SQLite's `LIMIT`/`OFFSET` as a
  window over the matching rows.
- `AirQualityApi` (`api.dfy`): argument reading, the two statements and
  the handler.

Main results:

- **Parameterised.** Every statement the handler sends has exactly one
  bound value per `?` in its text.
- **Values never reach the SQL text.** The text of both statements depends
  only on which filters are supplied. It does not depend on their values,
  the page or the page size.
- **Counting.** The conditions and the values correspond index by index,
  in the fixed order city, min_aqi, max_aqi, start_date, end_date. Their
  number is the number of supplied filters.
- **Paging.** For a positive page size the page count is the ceiling of
  `total / limit`. No page holds more than `limit` rows. If every request
  sees the matching rows in one and the same order, pages `1..pages` put
  together give every matching row exactly once, in that order.
- **Overflow.** A bound integer outside 64 bits fails the statement with
  `OverflowError`: an AQI bound fails the counting statement, and a page
  size or offset fails the page statement.

Behaviour of the code that the model keeps:

- A malformed `page` or `limit` makes `int()` raise. The handler turns that
  into a 500 answer, not a client error. A malformed `min_aqi` or
  `max_aqi` is silently ignored.
- `page <= 0` and `limit <= 0` are not rejected:
  - With a non-negative limit, a page of 1 or less reads the first page,
    because SQLite treats a negative offset as 0.
  - A negative limit means no bound in SQLite. With a negative limit, a
    page below 1 gives a positive offset: it skips `(1 - page) * |limit|`
    rows and returns the rest.
  - A limit of 0 makes the page count divide by zero, which again becomes
    a 500 answer.
- An integer too large for SQLite, such as `min_aqi=2**63` or the offset
  of `page=2**62` with `limit=100`, also ends in a 500 answer.

## Model

| member | source | states |
|---|---|---|
| `Filters.BuildFilter` | app.py:367-388 | The builder's two lists are exactly the conditions and the values of the supplied filters, in the fixed order. Both are as long as the set of supplied filters. |
| `Filters.AddFilter` | app.py:370-388 | One `if … append` block: when the filter is supplied, exactly one template is appended to the conditions and one value to the parameters. Otherwise both lists are unchanged. |
| `Filters.Correspondence` | app.py:370-388 | The i-th condition is the template of the i-th supplied filter, and the i-th value is that filter's value. The two lists are equally long. |
| `Filters.SuppliedCount` | app.py:367-388 | `len(where_conditions) == len(params)` == the number of supplied filters. |
| `Filters.SuppliedFieldsInOrder` | app.py:370-388 | A filter appears in the builder's output exactly when it is supplied. The text filters count only when non-empty; the AQI bounds count whenever present, so 0 counts. The output is in the fixed order city, min_aqi, max_aqi, start_date, end_date. |
| `Filters.FieldAtPosition` | app.py:370-388 | A supplied filter's template and value sit at the same index: the number of supplied filters before it in the fixed order. |
| `Filters.ConditionsAndParams` | app.py:370-388 | Per filter: `city LIKE ?` is bound to `%city%` and comes first; `aqi >= ?` and `aqi <= ?` are bound to the integer bounds; the two `DATE(timestamp)` conditions are bound to the dates as given. |
| `Filters.WhereEmptyIffNoFilter` | app.py:390-392 | The WHERE clause is empty exactly when no filter is supplied. Otherwise it is `WHERE ` followed by the conditions joined with ` AND `. |
| `Filters.WhereClause` | app.py:390-392 | The clause is empty exactly when the list of conditions is empty. |
| `Filters.WherePlaceholders` | app.py:370-392 | The WHERE clause has exactly as many `?` placeholders as there are bound values. |
| `Filters.TemplatePlaceholder` | app.py:371-387 | Each of the five templates has exactly one placeholder. |
| `Filters.JoinPlaceholders` | app.py:392 | Joining one-placeholder parts with a placeholder-free separator keeps one placeholder per part. |
| `Filters.ConditionsDependOnlyOnShape` | app.py:367-392 | Two requests have the same conditions exactly when they supply the same filters, whatever the values. Then their WHERE clauses are equal and they bind equally many values. |
| `Pagination.ClampLimit` | app.py:359 | The limit used is at most 100. It equals the request when that is at most 100 (zero and negatives included) and is 100 otherwise. |
| `Pagination.OffsetIsPageStart` | app.py:399 | For `page >= 1` and `limit >= 0` the offset is non-negative. For `limit >= 1` it is the multiple `page - 1` of the limit, and the next page starts one limit further on. |
| `Pagination.LowPageShowsFirstRows` | app.py:399-404 | With a non-negative limit, a page number of 1 or less gives a non-positive offset, so SQLite returns the rows of the first page. |
| `Pagination.LowPageNegativeLimit` | app.py:399-404 | With a negative limit, a page number of 1 or less gives the offset `(1 - page) * -limit` and, for a page below 1, at least `-limit`. SQLite skips that many rows and returns all the rest. |
| `Pagination.FloorDiv` | app.py:420 | Python's `//`: the quotient rounded toward minus infinity, for either sign of the divisor. |
| `Pagination.PageCount` | app.py:420 | The page count is missing (ZeroDivisionError, a 500 answer) exactly when the limit is 0. |
| `Pagination.PageCountIsCeiling` | app.py:417-420 | For `limit >= 1` the page count is the ceiling of `total / limit`: it is non-negative, `pages*limit >= total`, `(pages-1)*limit < total` when `total > 0`, and 0 when `total == 0`. |
| `Pagination.Window` | app.py:403-404 | SQLite's `LIMIT ? OFFSET ?` over the ordered matching rows. The page is never longer than the rows, and never longer than a non-negative limit. |
| `Pagination.PageRunIsSlice` | app.py:399-404 | Consecutive pages hold consecutive rows: `count` pages from `page` on are the slice from that page's offset, `count` limits long, cut at the end of the rows. |
| `Pagination.AllPagesCoverRows` | app.py:399-420 | Over one fixed order of the matching rows, the windows of pages 1 through `pages` put together are exactly those rows: each once, in that order. |
| `Pagination.PageContents` | app.py:399-420 | Every page up to `pages` holds at least one row, every page before the last holds exactly `limit` rows, and every page after `pages` is empty. |
| `AirQualityApi.RequestLimit` | app.py:359 | The page size used is `min(n, 100)` for an integer argument `n`, so at most 100, and is 50 when absent. It is missing exactly when the argument is malformed. |
| `AirQualityApi.BuildStatements` | app.py:367-406 | The statements built are the counting statement and the page statement of the request's filters. The page statement binds the filter values, then the limit, then `(page - 1) * limit`. |
| `AirQualityApi.GetAirQuality` | app.py:352-434 | The handler's full contract. A malformed page or limit fails with ValueError before any statement is sent. Otherwise it sends the counting statement, then the page statement, each with one value per placeholder. An AQI bound outside 64 bits fails the counting statement, and the page statement is not sent. Otherwise a page size or offset outside 64 bits fails the page statement. Both fail with OverflowError. Without overflow, it fails with ZeroDivisionError exactly when the clamped limit is 0. On success it answers with the window of matching rows at the page's offset, pagination (page, clamped limit ≤ 100, total = number of matching rows, ceiling page count) and the applied filters. With a non-negative limit the page holds at most `limit` rows; with a negative one it holds every row from the offset on. |
| `AirQualityApi.Respond` | app.py:414-434 | The answer after both statements have run. It fails with ZeroDivisionError exactly when the page count is missing, that is when the limit is 0. Otherwise it holds the window at the page's offset, the total, the page count and the filters. |
| `AirQualityApi.StatementPlaceholders` | app.py:395-406 | For every request, each statement's placeholder count equals the number of its bound values: the filter values for the count, plus `limit` and `offset` for the page. |
| `AirQualityApi.DataQueryPlaceholders` | app.py:400-405 | The fixed text of the page statement adds exactly the two placeholders of `LIMIT ? OFFSET ?` to the WHERE clause. |
| `AirQualityApi.CountQueryPlaceholders` | app.py:395 | The fixed text of the counting statement adds no placeholder. |
| `AirQualityApi.SqlTextIndependentOfValues` | app.py:367-406 | Two requests that supply the same filters send statements with identical texts, whatever the filter values, pages and page sizes. Their page statements bind equally many values. |
| `AirQualityApi.MalformedAqiIgnored` | app.py:361-362 | A malformed `min_aqi` or `max_aqi` yields the same filter arguments as an absent one. The handler reads the filters only through them, so it sends the same statements and gives the same answer. |
| `AirQualityApi.ParamsBindable` | app.py:370-396 | The filter values can be bound exactly when each AQI bound present fits 64 bits. The city and the dates are text. |
| `AirQualityApi.DataStatementBindable` | app.py:399-407 | The page statement's values can be bound exactly when the filter values, the page size and the offset all fit 64 bits. |
| `AirQualityApi.FarPageOverflows` | app.py:399-407 | Page 2^62 at page size 100 has an offset beyond 64 bits, so the page statement raises OverflowError whatever the filters. |
| `AirQualityApi.DataStatementBindings` | app.py:406 | `data_params == params + [limit, offset]` with `offset == (page - 1) * limit`. The params come first, one per supplied filter. |

## Left out

- Flask routing and the text of query-string values. An integer argument
  arrives already classified: absent, an integer, or malformed. How
  `int()` parses a string (spaces, signs) is not modelled.
- The database connection, the results of `conn.execute` other than the
  overflow below, `conn.close`, `dict_from_row` and `jsonify`. These are
  I/O and library code. The rows come in as a parameter, `matching`. It stands for the
  rows the WHERE clause selects, ordered by `timestamp` descending. The
  count statement is taken to return its length, so the dataset must not
  change between the two statements.
- What `LIKE` and `DATE(timestamp) >= ?` match inside SQLite. The templates
  are opaque strings, and which rows match is the `matching` parameter.
- SQLite's treatment of a negative `LIMIT` (no bound) and of a negative
  `OFFSET` (taken as 0) is taken from its documented behaviour, not
  derived. So is the signed 64-bit range sqlite3 binds integers in.
- The other endpoints (`index` with its HTML template, `get_cities`,
  `get_stats`, `get_air_quality_by_id`), the health check and process
  startup. They are not part of this model.
- The five `if … append` blocks of the builder are modelled as five calls
  of one append step, `Filters.AddFilter`, one per filter in the source's
  order. The lists are sequences that are reassigned, not mutated in place.
- The message of the 500 answer (`str(e)`) is not modelled. Only the
  kind of exception is.
- Other failures of `conn.execute` and `fetchone` (a missing table, a locked
  database) are left out with the rest of the database I/O. The model does
  cover `conn.execute` raising `OverflowError` for a bound integer outside
  64 bits.
- Pagination.AllPagesCoverRows: the result assumes every request sees the
  matching rows in one and the same order, ties included. The source orders
  only by `timestamp`, which need not be unique. SQL leaves the order of
  tied rows unspecified, and each page is a separate statement. So between
  two page requests tied rows may be ordered differently, and a row may
  then repeat or be skipped.
- Pagination.PageRunIsSlice: rests on the same assumption of one fixed order
  of the matching rows for every request.
