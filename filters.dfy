/** The filter builder of the list endpoint (`get_air_quality` in app.py):
    five optional arguments become a list of SQL predicate templates, a
    parallel list of bound values, and a WHERE clause made from the
    templates alone. */
module Filters {
  import opened Wrappers

  /** A value bound to one `?` placeholder of a statement. */
  datatype Param = Text(text: string) | Number(number: int)

  /** The five filter arguments of a list request, already parsed:
      `city`, `start_date` and `end_date` as strings, `min_aqi` and
      `max_aqi` as integers (a value that does not parse is dropped by
      `request.args.get(..., type=int)` and arrives here as `None`). */
  datatype FilterArgs = FilterArgs(
    city: Option<string>,
    minAqi: Option<int>,
    maxAqi: Option<int>,
    startDate: Option<string>,
    endDate: Option<string>)

  /** The filters, one per argument. */
  datatype Field = City | MinAqi | MaxAqi | StartDate | EndDate

  /** The order in which the builder considers the filters. */
  const FieldOrder: seq<Field> := [City, MinAqi, MaxAqi, StartDate, EndDate]

  /** The position of a filter in `FieldOrder`. */
  function Rank(k: Field): (n: nat)
    ensures n < |FieldOrder| && FieldOrder[n] == k
  {
    match k
    case City => 0
    case MinAqi => 1
    case MaxAqi => 2
    case StartDate => 3
    case EndDate => 4
  }

  /** Python truthiness of an optional string: `None` and `""` are false. */
  predicate Truthy(s: Option<string>)
  {
    s.Some? && s.value != ""
  }

  /** Whether the request supplies filter `k`: the string filters only
      when non-empty, the integer filters whenever present, so that an
      AQI bound of 0 is a real filter. */
  predicate Supplied(args: FilterArgs, k: Field)
  {
    match k
    case City => Truthy(args.city)
    case MinAqi => args.minAqi.Some?
    case MaxAqi => args.maxAqi.Some?
    case StartDate => Truthy(args.startDate)
    case EndDate => Truthy(args.endDate)
  }

  /** The predicate template of each filter; its one `?` is the slot of
      the bound value. */
  function Template(k: Field): string
  {
    match k
    case City => "city LIKE ?"
    case MinAqi => "aqi >= ?"
    case MaxAqi => "aqi <= ?"
    case StartDate => "DATE(timestamp) >= ?"
    case EndDate => "DATE(timestamp) <= ?"
  }

  /** The value bound for a supplied filter: the city wrapped in `%` for a
      substring match, every other argument as given. */
  function Binding(args: FilterArgs, k: Field): Param
    requires Supplied(args, k)
  {
    match k
    case City => Text("%" + args.city.value + "%")
    case MinAqi => Number(args.minAqi.value)
    case MaxAqi => Number(args.maxAqi.value)
    case StartDate => Text(args.startDate.value)
    case EndDate => Text(args.endDate.value)
  }

  /** The filters of `ks` that `args` supplies, in the order of `ks`. */
  function Select(args: FilterArgs, ks: seq<Field>): seq<Field>
  {
    if ks == [] then []
    else (if Supplied(args, ks[0]) then [ks[0]] else []) + Select(args, ks[1..])
  }

  /** What a supplied filter adds to the conditions: its template, once. */
  function ConditionOf(args: FilterArgs, k: Field): seq<string>
  {
    if Supplied(args, k) then [Template(k)] else []
  }

  /** What a supplied filter adds to the parameters: its value, once. */
  function ParamOf(args: FilterArgs, k: Field): seq<Param>
  {
    if Supplied(args, k) then [Binding(args, k)] else []
  }

  /** The templates of the filters of `ks` that `args` supplies. */
  function ConditionsOf(args: FilterArgs, ks: seq<Field>): seq<string>
  {
    if ks == [] then []
    else ConditionOf(args, ks[0]) + ConditionsOf(args, ks[1..])
  }

  /** The bound values of the filters of `ks` that `args` supplies. */
  function ParamsOf(args: FilterArgs, ks: seq<Field>): seq<Param>
  {
    if ks == [] then []
    else ParamOf(args, ks[0]) + ParamsOf(args, ks[1..])
  }

  /** The supplied filters in the builder's order. */
  function SuppliedFields(args: FilterArgs): seq<Field>
  {
    Select(args, FieldOrder)
  }

  /** The supplied filters as a set. */
  function SuppliedSet(args: FilterArgs): set<Field>
  {
    set k | k in FieldOrder && Supplied(args, k)
  }

  /** The `where_conditions` the request yields. */
  function Conditions(args: FilterArgs): seq<string>
  {
    ConditionsOf(args, FieldOrder)
  }

  /** The `params` the request yields. */
  function Params(args: FilterArgs): seq<Param>
  {
    ParamsOf(args, FieldOrder)
  }

  /** Python's `sep.join(parts)`. */
  function Join(parts: seq<string>, sep: string): string
  {
    if |parts| == 0 then ""
    else if |parts| == 1 then parts[0]
    else parts[0] + sep + Join(parts[1..], sep)
  }

  /** The WHERE clause spliced into both queries. */
  function WhereClause(conditions: seq<string>): (w: string)
    ensures w == "" <==> conditions == []
  {
    if conditions == [] then "" else "WHERE " + Join(conditions, " AND ")
  }

  /** The number of `?` placeholders in a statement's text. */
  function Placeholders(sql: string): nat
  {
    if sql == [] then 0 else (if sql[0] == '?' then 1 else 0) + Placeholders(sql[1..])
  }

  /** One block of the builder: when filter `k` is supplied, append its
      template to the conditions and its value to the parameters. */
  method AddFilter(args: FilterArgs, k: Field, conditions: seq<string>, params: seq<Param>)
    returns (conditions': seq<string>, params': seq<Param>)
    ensures conditions' == conditions + ConditionOf(args, k)
    ensures params' == params + ParamOf(args, k)
  {
    conditions', params' := conditions, params;
    if Supplied(args, k) {
      conditions' := conditions' + [Template(k)];
      params' := params' + [Binding(args, k)];
    }
  }

  /** The builder itself: each supplied filter, in the fixed order city,
      min_aqi, max_aqi, start_date, end_date, appends its template and its
      value. */
  method BuildFilter(args: FilterArgs) returns (conditions: seq<string>, params: seq<Param>)
    ensures conditions == Conditions(args) && params == Params(args)
    ensures |conditions| == |params| == |SuppliedSet(args)|
  {
    conditions, params := [], [];
    ghost var done: seq<Field> := [];  // the filters considered so far
    conditions, params := AddFilter(args, City, conditions, params);
    BuildStep(args, done, City);
    done := done + [City];
    conditions, params := AddFilter(args, MinAqi, conditions, params);
    BuildStep(args, done, MinAqi);
    done := done + [MinAqi];
    conditions, params := AddFilter(args, MaxAqi, conditions, params);
    BuildStep(args, done, MaxAqi);
    done := done + [MaxAqi];
    conditions, params := AddFilter(args, StartDate, conditions, params);
    BuildStep(args, done, StartDate);
    done := done + [StartDate];
    conditions, params := AddFilter(args, EndDate, conditions, params);
    BuildStep(args, done, EndDate);
    done := done + [EndDate];
    assert done == FieldOrder;
    SuppliedCount(args);
  }

  /** (helper) Considering one more filter appends its template and value
      exactly when it is supplied. */
  lemma {:induction false} BuildStep(args: FilterArgs, ks: seq<Field>, k: Field)
    ensures Select(args, ks + [k]) == Select(args, ks) + (if Supplied(args, k) then [k] else [])
    ensures ConditionsOf(args, ks + [k]) == ConditionsOf(args, ks) + ConditionOf(args, k)
    ensures ParamsOf(args, ks + [k]) == ParamsOf(args, ks) + ParamOf(args, k)
  {
    if ks == [] {
      assert ks + [k] == [k];
    } else {
      assert (ks + [k])[1..] == ks[1..] + [k];
      BuildStep(args, ks[1..], k);
    }
  }

  /** Each supplied filter contributes one condition and one value, at the
      same index as the filter in the list of supplied filters: the i-th
      value belongs to the i-th condition. */
  lemma {:induction false} Correspondence(args: FilterArgs, ks: seq<Field>)
    ensures |ConditionsOf(args, ks)| == |ParamsOf(args, ks)| == |Select(args, ks)|
    ensures forall i :: 0 <= i < |Select(args, ks)| ==>
              Supplied(args, Select(args, ks)[i]) &&
              ConditionsOf(args, ks)[i] == Template(Select(args, ks)[i]) &&
              ParamsOf(args, ks)[i] == Binding(args, Select(args, ks)[i])
  {
    if ks != [] {
      Correspondence(args, ks[1..]);
    }
  }

  /** (helper) Exactly the supplied filters of `ks` are selected. */
  lemma {:induction false} SelectMembers(args: FilterArgs, ks: seq<Field>)
    ensures forall k :: k in Select(args, ks) <==> k in ks && Supplied(args, k)
  {
    if ks != [] {
      SelectMembers(args, ks[1..]);
      assert forall k :: k in ks <==> k == ks[0] || k in ks[1..];
    }
  }

  /** (helper) Selecting distributes over concatenation. */
  lemma {:induction false} SelectAppend(args: FilterArgs, a: seq<Field>, b: seq<Field>)
    ensures Select(args, a + b) == Select(args, a) + Select(args, b)
  {
    if a == [] {
      assert a + b == b;
    } else {
      assert (a + b)[1..] == a[1..] + b;
      SelectAppend(args, a[1..], b);
    }
  }

  /** A list of filters strictly increasing in rank. */
  predicate Ascending(ks: seq<Field>)
  {
    forall i, j :: 0 <= i < j < |ks| ==> Rank(ks[i]) < Rank(ks[j])
  }

  /** (helper) Selecting keeps a strictly increasing order. */
  lemma {:induction false} SelectKeepsOrder(args: FilterArgs, ks: seq<Field>)
    requires Ascending(ks)
    ensures Ascending(Select(args, ks))
  {
    if ks != [] {
      var rest := Select(args, ks[1..]);
      AscendingTail(ks);
      SelectKeepsOrder(args, ks[1..]);
      if Supplied(args, ks[0]) {
        SelectMembers(args, ks[1..]);
        HeadBelowTail(ks);
        AscendingCons(ks[0], rest);
      }
    }
  }

  /** (helper) The head of an increasing list ranks below every later
      element. */
  lemma HeadBelowTail(ks: seq<Field>)
    requires Ascending(ks) && ks != []
    ensures forall k :: k in ks[1..] ==> Rank(ks[0]) < Rank(k)
  {
    forall k | k in ks[1..] ensures Rank(ks[0]) < Rank(k) {
      var m :| 0 <= m < |ks| - 1 && ks[1..][m] == k;
      assert ks[m + 1] == k;
    }
  }

  /** (helper) Putting a filter that ranks below every element in front
      of an increasing list keeps it increasing. */
  lemma AscendingCons(k: Field, rest: seq<Field>)
    requires Ascending(rest)
    requires forall x :: x in rest ==> Rank(k) < Rank(x)
    ensures Ascending([k] + rest)
  {
    var s := [k] + rest;
    forall i, j | 0 <= i < j < |s| ensures Rank(s[i]) < Rank(s[j]) {
      assert s[j] == rest[j - 1];
      if i > 0 {
        assert s[i] == rest[i - 1];
      }
    }
  }

  /** The supplied filters appear in the builder's fixed order city,
      min_aqi, max_aqi, start_date, end_date, and exactly the supplied
      ones appear. */
  lemma SuppliedFieldsInOrder(args: FilterArgs)
    ensures forall k :: k in SuppliedFields(args) <==> Supplied(args, k)
    ensures Ascending(SuppliedFields(args))
  {
    FieldOrderComplete();
    SelectMembers(args, FieldOrder);
    SelectKeepsOrder(args, FieldOrder);
  }

  /** (helper) The fixed order lists every filter, in increasing rank. */
  lemma FieldOrderComplete()
    ensures forall k :: k in FieldOrder
    ensures Ascending(FieldOrder)
  {
    forall k ensures k in FieldOrder {
      assert FieldOrder[Rank(k)] == k;
    }
    forall i, j | 0 <= i < j < |FieldOrder| ensures Rank(FieldOrder[i]) < Rank(FieldOrder[j]) {
      assert Rank(FieldOrder[i]) == i && Rank(FieldOrder[j]) == j;
    }
  }

  /** (helper) The tail of an increasing list is increasing. */
  lemma AscendingTail(ks: seq<Field>)
    requires Ascending(ks) && ks != []
    ensures Ascending(ks[1..])
  {
    var rest := ks[1..];
    forall i, j | 0 <= i < j < |rest| ensures Rank(rest[i]) < Rank(rest[j]) {
      assert rest[i] == ks[i + 1] && rest[j] == ks[j + 1];
    }
  }

  /** (helper) The head of an increasing list does not occur in its tail. */
  lemma HeadNotInTail(ks: seq<Field>)
    requires Ascending(ks) && ks != []
    ensures ks[0] !in ks[1..]
  {
    var rest := ks[1..];
    forall j | 0 <= j < |rest| ensures rest[j] != ks[0] {
      assert rest[j] == ks[j + 1];
    }
  }

  /** (helper) A list strictly increasing in rank has as many elements as
      its set. */
  lemma {:induction false} DistinctCard(ks: seq<Field>)
    requires Ascending(ks)
    ensures |set k | k in ks| == |ks|
  {
    if ks != [] {
      var rest := ks[1..];
      AscendingTail(ks);
      HeadNotInTail(ks);
      DistinctCard(rest);
      assert (set k | k in ks) == {ks[0]} + (set k | k in rest);
    }
  }

  /** One condition and one value per supplied filter: both lists are as
      long as the set of supplied filters. */
  lemma SuppliedCount(args: FilterArgs)
    ensures |Conditions(args)| == |Params(args)| == |SuppliedSet(args)|
  {
    Correspondence(args, FieldOrder);
    SuppliedFieldsInOrder(args);
    DistinctCard(SuppliedFields(args));
    assert (set k | k in SuppliedFields(args)) == SuppliedSet(args);
  }

  /** How many supplied filters come before `k` in the fixed order: the
      index of `k`'s condition and value when `k` is supplied. */
  function Position(args: FilterArgs, k: Field): nat
  {
    |Select(args, FieldOrder[..Rank(k)])|
  }

  /** (helper) A supplied filter's condition and value sit at its position. */
  lemma FieldAtPosition(args: FilterArgs, k: Field)
    requires Supplied(args, k)
    ensures Position(args, k) < |Conditions(args)| == |Params(args)|
    ensures Conditions(args)[Position(args, k)] == Template(k)
    ensures Params(args)[Position(args, k)] == Binding(args, k)
  {
    var n := Rank(k);
    assert FieldOrder == FieldOrder[..n] + FieldOrder[n..];
    SelectAppend(args, FieldOrder[..n], FieldOrder[n..]);
    assert FieldOrder[n..][0] == k;
    Correspondence(args, FieldOrder);
    assert SuppliedFields(args)[Position(args, k)] == k;
  }

  /** Each supplied filter puts its own template and value at the same
      index: the city wrapped as `%city%`, the other arguments as given;
      the city, when supplied, comes first. */
  lemma ConditionsAndParams(args: FilterArgs)
    ensures |Conditions(args)| == |Params(args)|
    ensures Truthy(args.city) ==>
              Position(args, City) == 0 &&
              Conditions(args)[0] == "city LIKE ?" &&
              Params(args)[0] == Text("%" + args.city.value + "%")
    ensures args.minAqi.Some? ==>
              Position(args, MinAqi) < |Params(args)| &&
              Conditions(args)[Position(args, MinAqi)] == "aqi >= ?" &&
              Params(args)[Position(args, MinAqi)] == Number(args.minAqi.value)
    ensures args.maxAqi.Some? ==>
              Position(args, MaxAqi) < |Params(args)| &&
              Conditions(args)[Position(args, MaxAqi)] == "aqi <= ?" &&
              Params(args)[Position(args, MaxAqi)] == Number(args.maxAqi.value)
    ensures Truthy(args.startDate) ==>
              Position(args, StartDate) < |Params(args)| &&
              Conditions(args)[Position(args, StartDate)] == "DATE(timestamp) >= ?" &&
              Params(args)[Position(args, StartDate)] == Text(args.startDate.value)
    ensures Truthy(args.endDate) ==>
              Position(args, EndDate) < |Params(args)| &&
              Conditions(args)[Position(args, EndDate)] == "DATE(timestamp) <= ?" &&
              Params(args)[Position(args, EndDate)] == Text(args.endDate.value)
  {
    Correspondence(args, FieldOrder);
    if Supplied(args, City) {
      FieldAtPosition(args, City);
      assert FieldOrder[..0] == [];
    }
    if Supplied(args, MinAqi) { FieldAtPosition(args, MinAqi); }
    if Supplied(args, MaxAqi) { FieldAtPosition(args, MaxAqi); }
    if Supplied(args, StartDate) { FieldAtPosition(args, StartDate); }
    if Supplied(args, EndDate) { FieldAtPosition(args, EndDate); }
  }

  /** The WHERE clause is empty exactly when no filter is supplied, and is
      otherwise `WHERE ` followed by the conditions joined with ` AND `. */
  lemma WhereEmptyIffNoFilter(args: FilterArgs)
    ensures WhereClause(Conditions(args)) == "" <==> SuppliedSet(args) == {}
    ensures SuppliedSet(args) != {} ==>
              WhereClause(Conditions(args)) == "WHERE " + Join(Conditions(args), " AND ")
  {
    SuppliedCount(args);
  }

  /** (helper) Placeholders add up over concatenation. */
  lemma {:induction false} PlaceholdersConcat(a: string, b: string)
    ensures Placeholders(a + b) == Placeholders(a) + Placeholders(b)
  {
    if a == [] {
      assert a + b == b;
    } else {
      assert (a + b)[1..] == a[1..] + b;
      PlaceholdersConcat(a[1..], b);
    }
  }

  /** (helper) A text with no placeholder counts none. */
  lemma {:induction false} NoPlaceholder(s: string)
    requires '?' !in s
    ensures Placeholders(s) == 0
  {
    if s != [] {
      assert forall i :: 0 <= i < |s[1..]| ==> s[1..][i] == s[i + 1];
      NoPlaceholder(s[1..]);
    }
  }

  /** (helper) A text whose only placeholder is its last character counts one. */
  lemma TrailingPlaceholder(t: string)
    requires |t| > 0 && t[|t| - 1] == '?' && '?' !in t[..|t| - 1]
    ensures Placeholders(t) == 1
  {
    var last := [t[|t| - 1]];
    assert t == t[..|t| - 1] + last;
    NoPlaceholder(t[..|t| - 1]);
    PlaceholdersConcat(t[..|t| - 1], last);
    assert last[1..] == [];
  }

  /** (helper) Every template holds exactly one placeholder, at its end. */
  lemma TemplatePlaceholder(k: Field)
    ensures Placeholders(Template(k)) == 1
  {
    var t := Template(k);
    match k {
      case City => assert '?' !in t[..10];
      case MinAqi => assert '?' !in t[..7];
      case MaxAqi => assert '?' !in t[..7];
      case StartDate => assert '?' !in t[..19];
      case EndDate => assert '?' !in t[..19];
    }
    TrailingPlaceholder(t);
  }

  /** (helper) Joining texts of one placeholder each with a separator
      free of placeholders gives one placeholder per part. */
  lemma {:induction false} JoinPlaceholders(parts: seq<string>, sep: string)
    requires Placeholders(sep) == 0
    requires forall i :: 0 <= i < |parts| ==> Placeholders(parts[i]) == 1
    ensures Placeholders(Join(parts, sep)) == |parts|
  {
    if |parts| > 1 {
      JoinPlaceholders(parts[1..], sep);
      PlaceholdersConcat(parts[0], sep);
      PlaceholdersConcat(parts[0] + sep, Join(parts[1..], sep));
    }
  }

  /** The WHERE clause has exactly one placeholder per bound value. */
  lemma WherePlaceholders(args: FilterArgs)
    ensures Placeholders(WhereClause(Conditions(args))) == |Params(args)|
  {
    var cs := Conditions(args);
    Correspondence(args, FieldOrder);
    forall i | 0 <= i < |cs| ensures Placeholders(cs[i]) == 1 {
      TemplatePlaceholder(SuppliedFields(args)[i]);
    }
    NoPlaceholder(" AND ");
    JoinPlaceholders(cs, " AND ");
    if cs != [] {
      NoPlaceholder("WHERE ");
      PlaceholdersConcat("WHERE ", Join(cs, " AND "));
    }
  }

  /** Two requests supply the same filters. */
  predicate SameShape(a: FilterArgs, b: FilterArgs)
  {
    forall k :: Supplied(a, k) <==> Supplied(b, k)
  }

  /** (helper) The conditions only look at which filters are supplied. */
  lemma {:induction false} ConditionsSameShape(a: FilterArgs, b: FilterArgs, ks: seq<Field>)
    requires SameShape(a, b)
    ensures Select(a, ks) == Select(b, ks)
    ensures ConditionsOf(a, ks) == ConditionsOf(b, ks)
  {
    if ks != [] {
      ConditionsSameShape(a, b, ks[1..]);
    }
  }

  /** (helper) Different filters have different templates. */
  lemma TemplateInjective(k1: Field, k2: Field)
    requires Template(k1) == Template(k2)
    ensures k1 == k2
  {
    assert Template(MinAqi)[4] != Template(MaxAqi)[4];
    assert Template(StartDate)[16] != Template(EndDate)[16];
  }

  /** Injection safety: the conditions, and so the WHERE clause, are a
      function of which filters are supplied and never of their values;
      conversely the conditions tell exactly which filters were supplied. */
  lemma ConditionsDependOnlyOnShape(a: FilterArgs, b: FilterArgs)
    ensures SameShape(a, b) <==> Conditions(a) == Conditions(b)
    ensures SameShape(a, b) ==> WhereClause(Conditions(a)) == WhereClause(Conditions(b))
    ensures SameShape(a, b) ==> |Params(a)| == |Params(b)|
  {
    Correspondence(a, FieldOrder);
    Correspondence(b, FieldOrder);
    if SameShape(a, b) {
      ConditionsSameShape(a, b, FieldOrder);
    }
    if Conditions(a) == Conditions(b) {
      var sa, sb := SuppliedFields(a), SuppliedFields(b);
      forall i | 0 <= i < |sa| ensures sa[i] == sb[i] {
        TemplateInjective(sa[i], sb[i]);
      }
      assert sa == sb;
      SuppliedFieldsInOrder(a);
      SuppliedFieldsInOrder(b);
      forall k ensures Supplied(a, k) <==> Supplied(b, k) {
        assert k in sa <==> k in sb;
      }
    }
  }
}
