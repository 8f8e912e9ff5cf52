/** The list endpoint `GET /api/air-quality` (`get_air_quality` in app.py):
    it reads the pagination and filter arguments, builds one counting
    statement and one page statement over the same WHERE clause, sends
    both to SQLite with bound parameters, and answers with the page, the
    pagination block and the filters it applied. */
module AirQualityApi {
  import opened Wrappers
  import opened Filters
  import opened Pagination

  /** A query-string argument that the handler reads as an integer. */
  datatype IntArg = Absent | Integer(n: int) | Malformed

  /** The arguments of one list request. */
  datatype Request = Request(
    page: IntArg,
    limit: IntArg,
    city: Option<string>,
    minAqi: IntArg,
    maxAqi: IntArg,
    startDate: Option<string>,
    endDate: Option<string>)

  /** The exceptions that turn the request into a 500 answer: `int()` of
      a malformed `page` or `limit`, a bound integer that does not fit a
      SQLite INTEGER, and the page count of a zero limit. */
  datatype HandlerError = ValueError | OverflowError | ZeroDivisionError

  /** One `conn.execute(sql, params)`. */
  datatype Statement = Statement(sql: string, args: seq<Param>)

  /** The range of a SQLite INTEGER, signed 64 bits. */
  const MinInt64: int := -0x8000_0000_0000_0000
  const MaxInt64: int := 0x7FFF_FFFF_FFFF_FFFF

  /** Whether an integer fits a SQLite INTEGER. */
  predicate InInt64(n: int)
  {
    MinInt64 <= n <= MaxInt64
  }

  /** Whether sqlite3 accepts the values of a statement: it binds a Python
      int only when it fits in 64 bits and raises `OverflowError`
      otherwise. */
  predicate Bindable(args: seq<Param>)
  {
    forall i :: 0 <= i < |args| ==> (args[i].Number? ==> InInt64(args[i].number))
  }

  /** The `pagination` block of the answer. */
  datatype PaginationInfo = PaginationInfo(page: int, limit: int, total: nat, pages: int)

  /** The answer: the page of rows, the pagination block and the filter
      arguments echoed back. */
  datatype Reply<Row> = Reply(data: seq<Row>, pagination: PaginationInfo, filters: FilterArgs)

  /** `int(request.args.get(name, default))`: the default when absent,
      `None` for the `ValueError` of a malformed value. */
  function IntOrDefault(a: IntArg, default: int): (r: Option<int>)
    ensures r.None? <==> a.Malformed?
    ensures a.Absent? ==> r == Some(default)
    ensures a.Integer? ==> r == Some(a.n)
  {
    match a
    case Absent => Some(default)
    case Integer(n) => Some(n)
    case Malformed => None
  }

  /** `request.args.get(name, type=int)`: a malformed value is dropped
      silently, exactly as if it were absent. */
  function IntOrNone(a: IntArg): (r: Option<int>)
    ensures r.Some? <==> a.Integer?
    ensures a.Integer? ==> r.value == a.n
  {
    match a
    case Integer(n) => Some(n)
    case _ => None
  }

  /** The filter arguments as the builder sees them. */
  function FilterArgsOf(req: Request): (args: FilterArgs)
    ensures args.city == req.city && args.startDate == req.startDate && args.endDate == req.endDate
    ensures args.minAqi.Some? <==> req.minAqi.Integer?
    ensures args.maxAqi.Some? <==> req.maxAqi.Integer?
    ensures req.minAqi.Integer? ==> args.minAqi.value == req.minAqi.n
    ensures req.maxAqi.Integer? ==> args.maxAqi.value == req.maxAqi.n
  {
    FilterArgs(req.city, IntOrNone(req.minAqi), IntOrNone(req.maxAqi), req.startDate, req.endDate)
  }

  /** The page size the request asks for, cut down to the maximum. */
  function RequestLimit(req: Request): (r: Option<int>)
    ensures r.None? <==> req.limit.Malformed?
    ensures r.Some? ==> r.value <= MaxLimit
    ensures req.limit.Absent? ==> r == Some(DefaultLimit)
    ensures req.limit.Integer? ==> r == Some(ClampLimit(req.limit.n))
  {
    match IntOrDefault(req.limit, DefaultLimit)
    case Some(n) => Some(ClampLimit(n))
    case None => None
  }

  /** Twelve spaces: the indentation of the lines of the page statement. */
  const Indent: string := "            "

  /** One indented line of the page statement. */
  function Line(text: string): string
  {
    Indent + text + "\n"
  }

  /** The counting statement's text. */
  function CountQuery(where: string): string
  {
    "SELECT COUNT(*) FROM air_quality " + where
  }

  /** The page statement's text: the WHERE clause between the table and
      the newest-first order, then the two placeholders of the window. */
  function DataQuery(where: string): string
  {
    "\n" + Line("SELECT * FROM air_quality ") + Line(where)
      + Line("ORDER BY timestamp DESC ") + Line("LIMIT ? OFFSET ?") + "        "
  }

  /** The counting statement for a request's filters. */
  function CountStatement(args: FilterArgs): Statement
  {
    Statement(CountQuery(WhereClause(Conditions(args))), Params(args))
  }

  /** The page statement: the filter values, then the page size and the
      offset of the page. */
  function DataStatement(args: FilterArgs, page: int, limit: int): Statement
  {
    Statement(DataQuery(WhereClause(Conditions(args))),
              Params(args) + [Number(limit), Number(Offset(page, limit))])
  }

  /** The two statements of a request: the filter builder, the WHERE
      clause, and the counting and page statements over it. */
  method BuildStatements(args: FilterArgs, page: int, limit: int)
    returns (countStmt: Statement, dataStmt: Statement)
    ensures countStmt == CountStatement(args)
    ensures dataStmt == DataStatement(args, page, limit)
  {
    var conditions, params := BuildFilter(args);
    var where := "";
    if conditions != [] {
      where := "WHERE " + Join(conditions, " AND ");
    }
    assert where == WhereClause(Conditions(args));
    countStmt := Statement(CountQuery(where), params);
    var offset := Offset(page, limit);
    dataStmt := Statement(DataQuery(where), params + [Number(limit), Number(offset)]);
  }

  /** The handler. `matching` stands for the rows of the table that the
      WHERE clause selects, newest first; the count statement returns its
      length and the page statement its LIMIT/OFFSET window. `executed`
      lists the statements handed to `conn.execute`, in order; one whose
      values do not all fit 64 bits raises there. */
  method GetAirQuality<Row>(req: Request, matching: seq<Row>)
    returns (executed: seq<Statement>, result: Result<Reply<Row>, HandlerError>)
    ensures req.page.Malformed? || req.limit.Malformed? <==> result == Failure(ValueError)
    ensures result == Failure(ValueError) ==> executed == []
    ensures result != Failure(ValueError) ==>
              var page := IntOrDefault(req.page, DefaultPage).value;
              var limit := RequestLimit(req).value;
              var args := FilterArgsOf(req);
              && executed == (if Bindable(Params(args))
                              then [CountStatement(args), DataStatement(args, page, limit)]
                              else [CountStatement(args)])
              && (result == Failure(OverflowError) <==> !Bindable(DataStatement(args, page, limit).args))
              && (result == Failure(ZeroDivisionError) <==>
                    Bindable(DataStatement(args, page, limit).args) && limit == 0)
              && (result.Success? ==>
                    result.value == Reply(Window(matching, limit, Offset(page, limit)),
                                          PaginationInfo(page, limit, |matching|, PageCount(|matching|, limit).value),
                                          args))
    ensures forall st :: st in executed ==> Placeholders(st.sql) == |st.args|
    ensures result.Success? ==> result.value.pagination.limit <= MaxLimit
    ensures result.Success? && result.value.pagination.limit >= 0 ==>
              |result.value.data| <= result.value.pagination.limit
  {
    executed := [];
    var pageArg := IntOrDefault(req.page, DefaultPage);
    if pageArg.None? {
      return executed, Failure(ValueError);
    }
    var page := pageArg.value;
    var limitArg := IntOrDefault(req.limit, DefaultLimit);
    if limitArg.None? {
      return executed, Failure(ValueError);
    }
    var limit := ClampLimit(limitArg.value);
    var args := FilterArgsOf(req);

    var countStmt, dataStmt := BuildStatements(args, page, limit);
    assert Placeholders(countStmt.sql) == |countStmt.args| && Placeholders(dataStmt.sql) == |dataStmt.args| by {
      StatementPlaceholders(args, page, limit);
    }
    assert Bindable(dataStmt.args) <==> Bindable(countStmt.args) && Bindable(dataStmt.args[|countStmt.args|..]) by {
      assert dataStmt.args == countStmt.args + dataStmt.args[|countStmt.args|..];
      BindableConcat(countStmt.args, dataStmt.args[|countStmt.args|..]);
    }
    executed := executed + [countStmt];
    if !Bindable(countStmt.args) {
      return executed, Failure(OverflowError);
    }
    executed := executed + [dataStmt];
    assert executed == [countStmt, dataStmt];
    if !Bindable(dataStmt.args) {
      return executed, Failure(OverflowError);
    }
    result := Respond(page, limit, args, matching);
  }

  /** The answer once both statements have run: the count statement
      yields `|matching|`, the page statement the window at the page's
      offset, and the page count divides by the page size. */
  method Respond<Row>(page: int, limit: int, args: FilterArgs, matching: seq<Row>)
    returns (result: Result<Reply<Row>, HandlerError>)
    ensures result.Failure? <==> limit == 0
    ensures result.Failure? ==> result.error == ZeroDivisionError
    ensures result.Success? ==>
              result.value == Reply(Window(matching, limit, Offset(page, limit)),
                                    PaginationInfo(page, limit, |matching|, PageCount(|matching|, limit).value),
                                    args)
  {
    var total := |matching|;
    var offset := Offset(page, limit);
    var data := Window(matching, limit, offset);
    match PageCount(total, limit)
    case None =>
      result := Failure(ZeroDivisionError);
    case Some(pages) =>
      result := Success(Reply(data, PaginationInfo(page, limit, total, pages), args));
  }

  /** (helper) An indented line has the placeholders of its text. */
  lemma LinePlaceholders(text: string)
    ensures Placeholders(Line(text)) == Placeholders(text)
  {
    NoPlaceholder(Indent);
    NoPlaceholder("\n");
    PlaceholdersConcat(Indent, text);
    PlaceholdersConcat(Indent + text, "\n");
  }

  /** (helper) The window clause holds the two placeholders. */
  lemma WindowClausePlaceholders()
    ensures Placeholders("LIMIT ? OFFSET ?") == 2
  {
    var t := "LIMIT ? OFFSET ?";
    assert t == t[..6] + [t[6]] + t[7..15] + [t[15]];
    NoPlaceholder(t[..6]);
    NoPlaceholder(t[7..15]);
    PlaceholdersConcat(t[..6], [t[6]]);
    PlaceholdersConcat(t[..6] + [t[6]], t[7..15]);
    PlaceholdersConcat(t[..6] + [t[6]] + t[7..15], [t[15]]);
  }

  /** (helper) Placeholders add up over five lines and a tail. */
  lemma PlaceholdersOfLines(head: string, l1: string, l2: string, l3: string, l4: string, tail: string)
    ensures Placeholders(head + l1 + l2 + l3 + l4 + tail)
            == Placeholders(head) + Placeholders(l1) + Placeholders(l2)
               + Placeholders(l3) + Placeholders(l4) + Placeholders(tail)
  {
    PlaceholdersConcat(head, l1);
    PlaceholdersConcat(head + l1, l2);
    PlaceholdersConcat(head + l1 + l2, l3);
    PlaceholdersConcat(head + l1 + l2 + l3, l4);
    PlaceholdersConcat(head + l1 + l2 + l3 + l4, tail);
  }

  /** (helper) A line whose text has no placeholder has none. */
  lemma NoPlaceholderLine(text: string)
    requires '?' !in text
    ensures Placeholders(Line(text)) == 0
  {
    NoPlaceholder(text);
    LinePlaceholders(text);
  }

  /** (helper) The window line holds two placeholders. */
  lemma WindowLinePlaceholders()
    ensures Placeholders(Line("LIMIT ? OFFSET ?")) == 2
  {
    WindowClausePlaceholders();
    LinePlaceholders("LIMIT ? OFFSET ?");
  }

  /** (helper) The fixed parts of the page statement add no placeholder
      but the two of the window. */
  lemma DataQueryPlaceholders(where: string)
    ensures Placeholders(DataQuery(where)) == Placeholders(where) + 2
  {
    NoPlaceholderLine("SELECT * FROM air_quality ");
    NoPlaceholderLine("ORDER BY timestamp DESC ");
    WindowLinePlaceholders();
    NoPlaceholder("\n");
    NoPlaceholder("        ");
    LinePlaceholders(where);
    PlaceholdersOfLines("\n", Line("SELECT * FROM air_quality "), Line(where),
                        Line("ORDER BY timestamp DESC "), Line("LIMIT ? OFFSET ?"), "        ");
  }

  /** (helper) The head of the counting statement has no placeholder. */
  lemma CountHeadPlaceholders()
    ensures Placeholders("SELECT COUNT(*) FROM air_quality ") == 0
  {
    NoPlaceholder("SELECT COUNT(*) FROM air_quality ");
  }

  /** (helper) The fixed part of the counting statement has no placeholder. */
  lemma CountQueryPlaceholders(where: string)
    ensures Placeholders(CountQuery(where)) == Placeholders(where)
  {
    CountHeadPlaceholders();
    PlaceholdersConcat("SELECT COUNT(*) FROM air_quality ", where);
  }

  /** Every statement the handler sends has exactly as many bound values
      as its text has placeholders, whatever filters are supplied. */
  lemma StatementPlaceholders(args: FilterArgs, page: int, limit: int)
    ensures Placeholders(CountStatement(args).sql) == |CountStatement(args).args|
    ensures Placeholders(DataStatement(args, page, limit).sql) == |DataStatement(args, page, limit).args|
  {
    var where := WhereClause(Conditions(args));
    var n := |Params(args)|;
    assert Placeholders(CountQuery(where)) == n by {
      WherePlaceholders(args);
      CountQueryPlaceholders(where);
    }
    assert Placeholders(DataQuery(where)) == n + 2 by {
      WherePlaceholders(args);
      DataQueryPlaceholders(where);
    }
  }

  /** Injection safety of the whole handler: two requests that supply the
      same filters send statements with the same texts, whatever the
      filter values, the page and the page size; only the bound values
      differ. */
  lemma SqlTextIndependentOfValues(r1: Request, r2: Request, page1: int, limit1: int, page2: int, limit2: int)
    requires SameShape(FilterArgsOf(r1), FilterArgsOf(r2))
    ensures CountStatement(FilterArgsOf(r1)).sql == CountStatement(FilterArgsOf(r2)).sql
    ensures DataStatement(FilterArgsOf(r1), page1, limit1).sql == DataStatement(FilterArgsOf(r2), page2, limit2).sql
    ensures |DataStatement(FilterArgsOf(r1), page1, limit1).args| == |DataStatement(FilterArgsOf(r2), page2, limit2).args|
  {
    ConditionsDependOnlyOnShape(FilterArgsOf(r1), FilterArgsOf(r2));
  }

  /** The values bound to the page statement: one per supplied filter, in
      the builder's order, then the page size and the offset in that
      order, matching `LIMIT ? OFFSET ?`. */
  lemma DataStatementBindings(args: FilterArgs, page: int, limit: int)
    ensures var st := DataStatement(args, page, limit);
            && |st.args| == |SuppliedSet(args)| + 2
            && st.args[..|st.args| - 2] == Params(args)
            && st.args[|st.args| - 2] == Number(limit)
            && st.args[|st.args| - 1] == Number((page - 1) * limit)
  {
    ConditionsAndParams(args);
    SuppliedCount(args);
  }

  /** A malformed AQI bound is dropped silently: the handler sees the same
      filters as when the bound is absent, so it sends the same statements
      and gives the same answer. */
  lemma MalformedAqiIgnored(req: Request)
    ensures FilterArgsOf(req.(minAqi := Malformed)) == FilterArgsOf(req.(minAqi := Absent))
    ensures FilterArgsOf(req.(maxAqi := Malformed)) == FilterArgsOf(req.(maxAqi := Absent))
  {
  }

  /** (helper) Values are bindable exactly when both parts are. */
  lemma BindableConcat(a: seq<Param>, b: seq<Param>)
    ensures Bindable(a + b) <==> Bindable(a) && Bindable(b)
  {
    if Bindable(a + b) {
      assert forall i :: 0 <= i < |a| ==> (a + b)[i] == a[i];
      assert forall i :: 0 <= i < |b| ==> (a + b)[|a| + i] == b[i];
    }
  }

  /** The filter values fit SQLite exactly when the AQI bounds that are
      present fit 64 bits; the city and the dates are text. */
  lemma ParamsBindable(args: FilterArgs)
    ensures Bindable(Params(args)) <==>
              (args.minAqi.Some? ==> InInt64(args.minAqi.value)) &&
              (args.maxAqi.Some? ==> InInt64(args.maxAqi.value))
  {
    Correspondence(args, FieldOrder);
    ConditionsAndParams(args);
  }

  /** The page statement's values fit SQLite exactly when the filter values,
      the page size and the offset `(page - 1) * limit` all do. */
  lemma DataStatementBindable(args: FilterArgs, page: int, limit: int)
    ensures Bindable(DataStatement(args, page, limit).args) <==>
              Bindable(Params(args)) && InInt64(limit) && InInt64(Offset(page, limit))
  {
    var tail := [Number(limit), Number(Offset(page, limit))];
    assert Bindable(tail) <==> InInt64(limit) && InInt64(Offset(page, limit)) by {
      assert tail[0] == Number(limit) && tail[1] == Number(Offset(page, limit));
    }
    BindableConcat(Params(args), tail);
  }

  /** A far page overflows the offset: page 2^62 at the largest page size
      asks SQLite to skip more rows than a 64-bit integer holds, so the page
      statement raises `OverflowError` whatever the filters. */
  lemma FarPageOverflows(args: FilterArgs)
    ensures !Bindable(DataStatement(args, 0x4000_0000_0000_0000, MaxLimit).args)
  {
    assert Offset(0x4000_0000_0000_0000, MaxLimit) > MaxInt64;
    DataStatementBindable(args, 0x4000_0000_0000_0000, MaxLimit);
  }
}
