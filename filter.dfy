/** The WHERE-clause builders of backend/api/filter.py: `build_sql_condition`
    for one (field, operator, value) condition, and the condition list that
    the `/filter` endpoint assembles from its request body. Both stop where
    the SQL text and its parameters are handed to sqlite. */
module Filter {
  import opened Wrappers
  import opened PyText
  import opened Values

  /** A SQL fragment and the parameters for its placeholders, in order. */
  datatype Fragment = Fragment(sql: string, params: seq<Param>)

  /** The operators a filter condition may name. */
  datatype Operator =
    | Equals | NotEquals | Contains | In | NotIn | GreaterThan | LessThan
    | GreaterEqual | LessEqual | Between | IsNull | IsNotNull

  /** The name a request uses for each operator. */
  function OperatorName(o: Operator): string
  {
    match o
    case Equals => "equals"
    case NotEquals => "not_equals"
    case Contains => "contains"
    case In => "in"
    case NotIn => "not_in"
    case GreaterThan => "greater_than"
    case LessThan => "less_than"
    case GreaterEqual => "greater_equal"
    case LessEqual => "less_equal"
    case Between => "between"
    case IsNull => "is_null"
    case IsNotNull => "is_not_null"
  }

  const SupportedOperators: seq<string> :=
    ["equals", "not_equals", "contains", "in", "not_in", "greater_than", "less_than",
     "greater_equal", "less_equal", "between", "is_null", "is_not_null"]

  /** The operator a request names, if it is one of the supported names. */
  function ParseOperator(op: string): (r: Option<Operator>)
    ensures r.Some? <==> op in SupportedOperators
    ensures r.Some? ==> OperatorName(r.value) == op
  {
    if op == "equals" then Some(Equals)
    else if op == "not_equals" then Some(NotEquals)
    else if op == "contains" then Some(Contains)
    else if op == "in" then Some(In)
    else if op == "not_in" then Some(NotIn)
    else if op == "greater_than" then Some(GreaterThan)
    else if op == "less_than" then Some(LessThan)
    else if op == "greater_equal" then Some(GreaterEqual)
    else if op == "less_equal" then Some(LessEqual)
    else if op == "between" then Some(Between)
    else if op == "is_null" then Some(IsNull)
    else if op == "is_not_null" then Some(IsNotNull)
    else None
  }

  /** Every operator is recognised by its own name. */
  lemma ParseOperatorName(o: Operator)
    ensures ParseOperator(OperatorName(o)) == Some(o)
  {
  }

  /** `','.join(['?' for _ in value])`: one placeholder per element. */
  function QMarks(n: nat): (r: string)
    ensures Placeholders(r) == n
  {
    var parts := seq(n, _ => "?");
    NoPlaceholders(",");
    OnePlaceholder();
    JoinPlaceholders(",", parts);
    Join(",", parts)
  }

  /** The parameters an operator binds: none for the null tests, the list
      elements for a list under `in`/`not_in`/`between`, the `%value%`
      pattern for `contains`, and the value itself otherwise. */
  function ConditionParams(o: Operator, value: Value): (r: seq<Param>)
    ensures |r| == Arity(o, value)
  {
    if o == IsNull || o == IsNotNull then []
    else if (o == In || o == NotIn || o == Between) && value.List? then Plains(value.items)
    else if o == Contains then [Interpolate("%", value, "%")]
    else [Plain(value)]
  }

  /** How many placeholders an operator's condition holds. */
  function Arity(o: Operator, value: Value): nat
  {
    if o == IsNull || o == IsNotNull then 0
    else if (o == In || o == NotIn || o == Between) && value.List? then |value.items|
    else 1
  }

  /** `field` followed by a comparison against one placeholder. */
  function Compare(field: string, symbol: string): (r: string)
    requires '?' !in symbol
    ensures Placeholders(r) == Placeholders(field) + 1
  {
    PlaceholdersAppend(field, " ");
    PlaceholdersAppend(field + " ", symbol);
    PlaceholdersAppend(field + " " + symbol, " ");
    PlaceholdersAppend(field + " " + symbol + " ", "?");
    NoPlaceholders(" ");
    NoPlaceholders(symbol);
    field + " " + symbol + " " + "?"
  }

  /** Case-insensitive equality against one placeholder. */
  function UpperEquals(field: string): (r: string)
    ensures Placeholders(r) == Placeholders(field) + 1
  {
    PlaceholdersAppend("UPPER(", field);
    PlaceholdersAppend("UPPER(" + field, ") = UPPER(");
    PlaceholdersAppend("UPPER(" + field + ") = UPPER(", "?");
    PlaceholdersAppend("UPPER(" + field + ") = UPPER(" + "?", ")");
    NoPlaceholders("UPPER(");
    NoPlaceholders(") = UPPER(");
    NoPlaceholders(")");
    "UPPER(" + field + ") = UPPER(" + "?" + ")"
  }

  /** Membership in a list of `n` placeholders. */
  function Membership(field: string, keyword: string, n: nat): (r: string)
    requires '?' !in keyword
    ensures Placeholders(r) == Placeholders(field) + n
  {
    PlaceholdersAppend(field, " ");
    PlaceholdersAppend(field + " ", keyword);
    PlaceholdersAppend(field + " " + keyword, " (");
    PlaceholdersAppend(field + " " + keyword + " (", QMarks(n));
    PlaceholdersAppend(field + " " + keyword + " (" + QMarks(n), ")");
    NoPlaceholders(keyword);
    NoPlaceholders(" (");
    NoPlaceholders(" ");
    NoPlaceholders(")");
    field + " " + keyword + " (" + QMarks(n) + ")"
  }

  /** A range between two placeholders. */
  function BetweenPair(field: string): (r: string)
    ensures Placeholders(r) == Placeholders(field) + 2
  {
    PlaceholdersAppend(field, " BETWEEN ");
    PlaceholdersAppend(field + " BETWEEN ", "?");
    PlaceholdersAppend(field + " BETWEEN " + "?", " AND ");
    PlaceholdersAppend(field + " BETWEEN " + "?" + " AND ", "?");
    NoPlaceholders(" BETWEEN ");
    NoPlaceholders(" AND ");
    field + " BETWEEN " + "?" + " AND " + "?"
  }

  /** A test that binds nothing. */
  function NullTest(field: string, test: string): (r: string)
    requires '?' !in test
    ensures Placeholders(r) == Placeholders(field)
  {
    PlaceholdersAppend(field, " ");
    PlaceholdersAppend(field + " ", test);
    NoPlaceholders(" ");
    NoPlaceholders(test);
    field + " " + test
  }

  /** The `ValueError`s `build_sql_condition` raises. */
  datatype FilterError =
    | UnsupportedOperator(op: string)
    | BetweenNeedsPair

  /** The text of each error. */
  function ErrorMessage(e: FilterError): string
  {
    match e
    case UnsupportedOperator(op) => "Unsupported operator: " + op
    case BetweenNeedsPair => "Between operator requires a list with exactly 2 values"
  }

  /** The comparison an operator applies to a single placeholder; `in` and
      `not_in` fall back to (in)equality for a value that is not a list. */
  function Symbol(o: Operator): (r: string)
    ensures '?' !in r
  {
    match o
    case Equals => "="
    case In => "="
    case NotEquals => "!="
    case NotIn => "!="
    case Contains => "LIKE"
    case GreaterThan => ">"
    case LessThan => "<"
    case GreaterEqual => ">="
    case LessEqual => "<="
    case Between => "BETWEEN"
    case IsNull => "IS NULL"
    case IsNotNull => "IS NOT NULL"
  }

  /** The SQL text for a recognised operator; `between` is only rendered
      for a pair. */
  function ConditionSql(field: string, o: Operator, value: Value): (r: string)
    requires o == Between ==> value.List? && |value.items| == 2
    ensures Placeholders(r) == Placeholders(field) + Arity(o, value)
  {
    if o == IsNull || o == IsNotNull then NullTest(field, Symbol(o))
    else if o == Between then BetweenPair(field)
    else if (o == In || o == NotIn) && value.List? then Membership(field, if o == In then "IN" else "NOT IN", |value.items|)
    else if o == Equals && value.Str? then UpperEquals(field)
    else Compare(field, Symbol(o))
  }

  /** The text and parameters for a recognised operator. */
  function OperatorCondition(field: string, o: Operator, value: Value): (r: Result<Fragment, FilterError>)
    ensures r.Err? <==> o == Between && !(value.List? && |value.items| == 2)
    ensures r.Ok? ==> Placeholders(r.value.sql) == Placeholders(field) + |r.value.params|
    ensures r.Ok? ==> r.value.params == ConditionParams(o, value)
  {
    if o == Between && !(value.List? && |value.items| == 2) then Err(BetweenNeedsPair)
    else Ok(Fragment(ConditionSql(field, o, value), ConditionParams(o, value)))
  }

  /** `build_sql_condition`. */
  function BuildSqlCondition(field: string, op: string, value: Value): (r: Result<Fragment, FilterError>)
    ensures r.Err? <==> op !in SupportedOperators || (op == "between" && !(value.List? && |value.items| == 2))
    ensures r.Ok? ==> Placeholders(r.value.sql) == Placeholders(field) + |r.value.params|
    ensures r.Ok? ==> r.value.params == ConditionParams(ParseOperator(op).value, value)
  {
    match ParseOperator(op)
    case None => Err(UnsupportedOperator(op))
    case Some(o) => OperatorCondition(field, o, value)
  }

  /** A comparison ends in its placeholder, the case-insensitive form in a
      parenthesis, so the two never coincide. */
  lemma UpperEqualsIsNotCompare(field: string, symbol: string)
    requires '?' !in symbol
    ensures UpperEquals(field) != Compare(field, symbol)
  {
    var c := Compare(field, symbol);
    var u := UpperEquals(field);
    assert c[|c| - 1] == '?';
    assert u[|u| - 1] == ')';
  }

  /** Each operator name selects its own operator's condition. */
  lemma BuildSqlConditionDispatches(field: string, o: Operator, value: Value)
    ensures BuildSqlCondition(field, OperatorName(o), value) == OperatorCondition(field, o, value)
  {
    ParseOperatorName(o);
  }

  lemma EqualsOnString(field: string, value: Value)
    requires value.Str?
    ensures ConditionSql(field, Equals, value) == UpperEquals(field)
  {
  }

  lemma EqualsOnOther(field: string, value: Value)
    requires !value.Str?
    ensures ConditionSql(field, Equals, value) == Compare(field, Symbol(Equals))
  {
  }

  /** `equals` compares case-insensitively exactly when the value is a string. */
  lemma EqualsIsCaseInsensitiveForStrings(field: string, value: Value)
    ensures var r := OperatorCondition(field, Equals, value);
            r.Ok? && (r.value.sql == UpperEquals(field) <==> value.Str?)
  {
    if value.Str? {
      EqualsOnString(field, value);
    } else {
      EqualsOnOther(field, value);
      UpperEqualsIsNotCompare(field, Symbol(Equals));
    }
  }

  // ---------------------------------------------------------------------
  // advanced_filter
  // ---------------------------------------------------------------------

  /** Why the `/filter` endpoint fails. Every failure is raised inside its
      `try` and re-raised by the generic handler with status 500. */
  datatype Cause =
    | FiscalYearRequired            // the 400 for a falsy `fiscal_year`
    | NotADictionary(key: string)   // a truthy filter group without `.get`
    | NotANumber(key: string)       // `float(...)`/`int(...)` raised

  datatype Rejection = Rejection(status: int, cause: Cause)

  /** The comparisons `advanced_filter` writes. */
  datatype Comparator = Eq | AtLeast | AtMost

  function ComparatorText(c: Comparator): (r: string)
    ensures '?' !in r
  {
    match c
    case Eq => "="
    case AtLeast => ">="
    case AtMost => "<="
  }

  /** One condition of `advanced_filter`, each against one placeholder:
      `column op ?`, or `UPPER(column) = UPPER(?)`. */
  datatype Condition =
    | Comparison(column: string, op: Comparator)
    | CaseInsensitive(column: string)

  /** The SQL text of a condition. */
  function Render(c: Condition): (r: string)
    ensures Placeholders(r) == Placeholders(c.column) + 1
  {
    match c
    case Comparison(column, op) => Compare(column, ComparatorText(op))
    case CaseInsensitive(column) => UpperEquals(column)
  }

  /** Conditions and the parameters they bind, in order. */
  datatype Query = Query(conditions: seq<Condition>, params: seq<Value>)

  /** Appending one query's conditions and parameters to another's. */
  function Concat(a: Query, b: Query): Query
  {
    Query(a.conditions + b.conditions, a.params + b.params)
  }

  /** How a numeric bound is converted before it is bound. */
  datatype Conversion = AsFloat | AsInt

  /** `float(v)` or `int(v)`; `None` where Python raises. */
  function Convert(kind: Conversion, v: Value): (r: Option<Value>)
    // numbers and booleans always convert; null, lists and objects never do
    ensures v.Int? || v.Float? || v.Bool? ==> r.Some?
    ensures v.Null? || v.List? || v.Dict? ==> r.None?
    // the result has the kind asked for, and a value of that kind is kept as it is
    ensures r.Some? ==> (kind == AsFloat ==> r.value.Float?) && (kind == AsInt ==> r.value.Int?)
    ensures kind == AsFloat && v.Float? ==> r == Some(v)
    ensures kind == AsInt && v.Int? ==> r == Some(v)
    // `float(n)` is exact, `int(x)` truncates toward zero
    ensures kind == AsFloat && v.Int? ==> r == Some(Float(v.i as real))
    ensures kind == AsInt && v.Float? ==> r == Some(Int(Truncate(v.r)))
  {
    match kind
    case AsFloat => (match ToFloat(v) case Some(x) => Some(Float(x)) case None => None)
    case AsInt => (match ToInt(v) case Some(n) => Some(Int(n)) case None => None)
  }

  /** State and city, each compared case-insensitively when truthy. */
  function GeoPart(geo: Value): Result<Query, Cause>
  {
    if !Truthy(geo) then Ok(Query([], []))
    else if !geo.Dict? then Err(NotADictionary("geo_filters"))
    else
      var st := Get(geo.entries, "st");
      var city := Get(geo.entries, "city");
      Ok(Query(Opt(Truthy(st), CaseInsensitive("st")) + Opt(Truthy(city), CaseInsensitive("city")),
               Opt(Truthy(st), st) + Opt(Truthy(city), city)))
  }

  /** The decimal text of an integer converts back to that integer. */
  lemma ConvertIntText(n: int)
    ensures Convert(AsInt, Str(IntToString(n))) == Some(Int(n))
  {
    ParseIntOfIntToString(n);
  }

  /** One numeric bound: skipped when null, refused when it does not convert. */
  function BoundPart(group: map<string, Value>, key: string, condition: Condition, kind: Conversion): (r: Result<Query, Cause>)
    ensures r.Err? <==> Get(group, key) != Null && Convert(kind, Get(group, key)).None?
    ensures r.Err? ==> r.error == NotANumber(key)
    ensures r.Ok? && Get(group, key) == Null ==> r.value == Query([], [])
    ensures r.Ok? && Get(group, key) != Null ==> r.value == Query([condition], [Convert(kind, Get(group, key)).value])
  {
    var v := Get(group, key);
    if v == Null then Ok(Query([], []))
    else match Convert(kind, v)
      case None => Err(NotANumber(key))
      case Some(x) => Ok(Query([condition], [x]))
  }

  /** A group holding a lower and an upper bound on one column. */
  function BoundsPart(group: Value, name: string, kind: Conversion, column: string,
                      lowKey: string, highKey: string): Result<Query, Cause>
  {
    if !Truthy(group) then Ok(Query([], []))
    else if !group.Dict? then Err(NotADictionary(name))
    else match BoundPart(group.entries, lowKey, Comparison(column, AtLeast), kind)
      case Err(c) => Err(c)
      case Ok(low) =>
        match BoundPart(group.entries, highKey, Comparison(column, AtMost), kind)
        case Err(c) => Err(c)
        case Ok(high) => Ok(Concat(low, high))
  }

  const RevenueColumn := "part_i_summary_12_total_revenue_cy"

  /** Revenue bounds, through `float()`. */
  function FinancialPart(financial: Value): Result<Query, Cause>
  {
    BoundsPart(financial, "financial_filters", AsFloat, RevenueColumn, "min_revenue", "max_revenue")
  }

  /** Employee bounds, through `int()`. */
  function OperationalPart(operational: Value): Result<Query, Cause>
  {
    BoundsPart(operational, "operational_filters", AsInt, "employees", "min_ilu", "max_ilu")
  }

  /** The year and, when truthy, the month. */
  function DatePart(year: Value, month: Value): Query
  {
    Query([Comparison("fiscal_year", Eq)] + Opt(Truthy(month), Comparison("fiscal_month", Eq)),
          [year] + Opt(Truthy(month), month))
  }

  /** What the endpoint sends to sqlite for a request, or how it fails: the
      groups in the order the endpoint visits them, the first failure winning. */
  function FilterQuery(request: map<string, Value>): Result<Query, Rejection>
  {
    var year := Get(request, "fiscal_year");
    if !Truthy(year) then Err(Rejection(500, FiscalYearRequired))
    else
      var date := DatePart(year, Get(request, "fiscal_month"));
      match GeoPart(Get(request, "geo_filters"))
      case Err(c) => Err(Rejection(500, c))
      case Ok(geo) =>
        match FinancialPart(Get(request, "financial_filters"))
        case Err(c) => Err(Rejection(500, c))
        case Ok(financial) =>
          match OperationalPart(Get(request, "operational_filters"))
          case Err(c) => Err(Rejection(500, c))
          case Ok(operational) => Ok(Concat(Concat(Concat(date, geo), financial), operational))
  }

  /** The text of each condition, in order. */
  function RenderAll(conditions: seq<Condition>): (r: seq<string>)
    ensures |r| == |conditions| && forall i :: 0 <= i < |r| ==> r[i] == Render(conditions[i])
  {
    seq(|conditions|, i requires 0 <= i < |conditions| => Render(conditions[i]))
  }

  /** The full statement: conditions joined with ` AND `. */
  function FilterSql(conditions: seq<Condition>): string
  {
    FilterHead() + Join(" AND ", RenderAll(conditions)) + FilterTail()
  }

  function FilterHead(): (r: string)
    ensures '?' !in r
  {
    "SELECT * FROM " + "nonprofits WHERE "
  }

  function FilterTail(): (r: string)
    ensures '?' !in r
  {
    " ORDER BY campus " + "LIMIT 1000"
  }

  /** A part appended to what came before, or the failure that stops it. */
  function Extend(before: Query, part: Result<Query, Cause>): Result<Query, Cause>
  {
    match part
    case Ok(p) => Ok(Concat(before, p))
    case Err(c) => Err(c)
  }

  lemma ConcatEmpty(a: Query)
    ensures Concat(a, Query([], [])) == a
  {
    assert a.conditions + [] == a.conditions && a.params + [] == a.params;
  }

  lemma ConcatAssociates(a: Query, b: Query, c: Query)
    ensures Concat(Concat(a, b), c) == Concat(a, Concat(b, c))
  {
    assert (a.conditions + b.conditions) + c.conditions == a.conditions + (b.conditions + c.conditions);
    assert (a.params + b.params) + c.params == a.params + (b.params + c.params);
  }

  /** The state and city branch of `advanced_filter`. */
  method AddGeoFilters(geo: Value, conditions: seq<Condition>, params: seq<Value>) returns (r: Result<Query, Cause>)
    ensures r == Extend(Query(conditions, params), GeoPart(geo))
  {
    var cs, ps := conditions, params;
    if Truthy(geo) {
      if !geo.Dict? {
        return Err(NotADictionary("geo_filters"));
      }
      if Truthy(Get(geo.entries, "st")) {
        cs := cs + [CaseInsensitive("st")];
        ps := ps + [Get(geo.entries, "st")];
      }
      if Truthy(Get(geo.entries, "city")) {
        cs := cs + [CaseInsensitive("city")];
        ps := ps + [Get(geo.entries, "city")];
      }
      ghost var st, city := Get(geo.entries, "st"), Get(geo.entries, "city");
      assert cs == conditions + (Opt(Truthy(st), CaseInsensitive("st")) + Opt(Truthy(city), CaseInsensitive("city")));
      assert ps == params + (Opt(Truthy(st), st) + Opt(Truthy(city), city));
    } else {
      ConcatEmpty(Query(cs, ps));
    }
    r := Ok(Query(cs, ps));
  }

  /** One bound of a numeric group: converted and appended when not null. */
  method AddBound(group: map<string, Value>, key: string, condition: Condition, kind: Conversion,
                  conditions: seq<Condition>, params: seq<Value>) returns (r: Result<Query, Cause>)
    ensures r == Extend(Query(conditions, params), BoundPart(group, key, condition, kind))
  {
    var cs, ps := conditions, params;
    var v := Get(group, key);
    if v != Null {
      var x := Convert(kind, v);
      if x.None? {
        return Err(NotANumber(key));
      }
      cs := cs + [condition];
      ps := ps + [x.value];
    } else {
      ConcatEmpty(Query(cs, ps));
    }
    r := Ok(Query(cs, ps));
  }

  /** The revenue or employee branch of `advanced_filter`. */
  method AddBounds(group: Value, name: string, kind: Conversion, column: string, lowKey: string, highKey: string,
                   conditions: seq<Condition>, params: seq<Value>) returns (r: Result<Query, Cause>)
    ensures r == Extend(Query(conditions, params), BoundsPart(group, name, kind, column, lowKey, highKey))
  {
    if !Truthy(group) {
      ConcatEmpty(Query(conditions, params));
      return Ok(Query(conditions, params));
    }
    if !group.Dict? {
      return Err(NotADictionary(name));
    }
    var low := AddBound(group.entries, lowKey, Comparison(column, AtLeast), kind, conditions, params);
    if low.Err? {
      return low;
    }
    r := AddBound(group.entries, highKey, Comparison(column, AtMost), kind, low.value.conditions, low.value.params);
    if r.Ok? {
      ConcatAssociates(Query(conditions, params),
                       BoundPart(group.entries, lowKey, Comparison(column, AtLeast), kind).value,
                       BoundPart(group.entries, highKey, Comparison(column, AtMost), kind).value);
    }
  }

  /** `advanced_filter` up to the query: conditions and parameters are
      appended branch by branch. */
  method AdvancedFilter(request: map<string, Value>) returns (r: Result<Query, Rejection>)
    ensures r == FilterQuery(request)
  {
    var fiscalYear := Get(request, "fiscal_year");
    var fiscalMonth := Get(request, "fiscal_month");
    var conditions: seq<Condition> := [];
    var params: seq<Value> := [];

    if Truthy(fiscalYear) {
      conditions := conditions + [Comparison("fiscal_year", Eq)];
      params := params + [fiscalYear];
    } else {
      return Err(Rejection(500, FiscalYearRequired));
    }
    if Truthy(fiscalMonth) {
      conditions := conditions + [Comparison("fiscal_month", Eq)];
      params := params + [fiscalMonth];
    }
    assert Query(conditions, params) == DatePart(fiscalYear, fiscalMonth);

    var geo := AddGeoFilters(Get(request, "geo_filters"), conditions, params);
    if geo.Err? {
      return Err(Rejection(500, geo.error));
    }
    var financial := AddBounds(Get(request, "financial_filters"), "financial_filters", AsFloat, RevenueColumn,
                               "min_revenue", "max_revenue", geo.value.conditions, geo.value.params);
    if financial.Err? {
      return Err(Rejection(500, financial.error));
    }
    var operational := AddBounds(Get(request, "operational_filters"), "operational_filters", AsInt, "employees",
                                 "min_ilu", "max_ilu", financial.value.conditions, financial.value.params);
    if operational.Err? {
      return Err(Rejection(500, operational.error));
    }
    r := Ok(operational.value);
  }

  /** Without a truthy fiscal year the request fails before any query, and
      the 400 surfaces as a 500. */
  lemma MissingYearIsServerError(request: map<string, Value>)
    requires !Truthy(Get(request, "fiscal_year"))
    ensures FilterQuery(request) == Err(Rejection(500, FiscalYearRequired))
  {
  }

  /** A truthy `geo_filters` that is not a dictionary is refused with 500. */
  lemma GroupMustBeDictionary(request: map<string, Value>)
    requires Truthy(Get(request, "fiscal_year"))
    requires Truthy(Get(request, "geo_filters")) && !Get(request, "geo_filters").Dict?
    ensures FilterQuery(request) == Err(Rejection(500, NotADictionary("geo_filters")))
  {
  }

  // Placeholders

  /** Every condition names a column without `?` and binds one parameter. */
  predicate OnePlaceholderEach(q: Query) {
    && |q.conditions| == |q.params|
    && forall i :: 0 <= i < |q.conditions| ==> '?' !in q.conditions[i].column
  }

  lemma ConcatOnePlaceholderEach(a: Query, b: Query)
    requires OnePlaceholderEach(a) && OnePlaceholderEach(b)
    ensures OnePlaceholderEach(Concat(a, b))
  {
    var c := Concat(a, b).conditions;
    forall i | 0 <= i < |c| ensures '?' !in c[i].column {
      if i < |a.conditions| {
        assert c[i] == a.conditions[i];
      } else {
        assert c[i] == b.conditions[i - |a.conditions|];
      }
    }
  }

  lemma BoundsOnePlaceholderEach(group: Value, name: string, kind: Conversion, column: string,
                                 lowKey: string, highKey: string)
    requires '?' !in column
    requires BoundsPart(group, name, kind, column, lowKey, highKey).Ok?
    ensures OnePlaceholderEach(BoundsPart(group, name, kind, column, lowKey, highKey).value)
  {
    if Truthy(group) {
      var low := BoundPart(group.entries, lowKey, Comparison(column, AtLeast), kind).value;
      var high := BoundPart(group.entries, highKey, Comparison(column, AtMost), kind).value;
      ConcatOnePlaceholderEach(low, high);
    }
  }

  lemma DateOnePlaceholderEach(year: Value, month: Value)
    ensures OnePlaceholderEach(DatePart(year, month))
  {
    var q := DatePart(year, month);
    assert '?' !in "fiscal_year" && '?' !in "fiscal_month";
    assert forall c :: c in q.conditions ==> c.column == "fiscal_year" || c.column == "fiscal_month";
  }

  lemma GeoOnePlaceholderEach(geo: Value)
    requires GeoPart(geo).Ok?
    ensures OnePlaceholderEach(GeoPart(geo).value)
  {
    var q := GeoPart(geo).value;
    assert '?' !in "st" && '?' !in "city";
    assert forall c :: c in q.conditions ==> c.column == "st" || c.column == "city";
  }

  /** Every condition the endpoint emits carries one placeholder. */
  lemma PartsOnePlaceholderEach(request: map<string, Value>)
    requires FilterQuery(request).Ok?
    ensures OnePlaceholderEach(FilterQuery(request).value)
  {
    var date := DatePart(Get(request, "fiscal_year"), Get(request, "fiscal_month"));
    var geo := GeoPart(Get(request, "geo_filters")).value;
    var financial := FinancialPart(Get(request, "financial_filters")).value;
    var operational := OperationalPart(Get(request, "operational_filters")).value;
    DateOnePlaceholderEach(Get(request, "fiscal_year"), Get(request, "fiscal_month"));
    GeoOnePlaceholderEach(Get(request, "geo_filters"));
    assert '?' !in RevenueColumn && '?' !in "employees";
    BoundsOnePlaceholderEach(Get(request, "financial_filters"), "financial_filters", AsFloat, RevenueColumn,
                             "min_revenue", "max_revenue");
    BoundsOnePlaceholderEach(Get(request, "operational_filters"), "operational_filters", AsInt, "employees",
                             "min_ilu", "max_ilu");
    ConcatOnePlaceholderEach(date, geo);
    ConcatOnePlaceholderEach(Concat(date, geo), financial);
    ConcatOnePlaceholderEach(Concat(Concat(date, geo), financial), operational);
  }

  /** Conditions joined with ` AND ` carry one placeholder each. */
  lemma JoinedPlaceholders(conditions: seq<Condition>)
    requires forall i :: 0 <= i < |conditions| ==> '?' !in conditions[i].column
    ensures Placeholders(Join(" AND ", RenderAll(conditions))) == |conditions|
  {
    var texts := RenderAll(conditions);
    forall i | 0 <= i < |texts| ensures Placeholders(texts[i]) == 1 {
      NoPlaceholders(conditions[i].column);
    }
    NoPlaceholders(" AND ");
    JoinPlaceholders(" AND ", texts);
  }

  lemma WrappedPlaceholders(prefix: string, body: string, suffix: string)
    requires '?' !in prefix && '?' !in suffix
    ensures Placeholders(prefix + body + suffix) == Placeholders(body)
  {
    PlaceholdersAppend(prefix, body);
    PlaceholdersAppend(prefix + body, suffix);
    NoPlaceholders(prefix);
    NoPlaceholders(suffix);
  }

  /** A statement built from such conditions has as many placeholders as
      conditions. */
  lemma SqlPlaceholders(q: Query)
    requires OnePlaceholderEach(q)
    ensures Placeholders(FilterSql(q.conditions)) == |q.params| == |q.conditions|
  {
    JoinedPlaceholders(q.conditions);
    WrappedPlaceholders(FilterHead(), Join(" AND ", RenderAll(q.conditions)), FilterTail());
  }

  /** The statement has exactly as many placeholders as parameters. */
  lemma FilterPlaceholdersMatch(request: map<string, Value>)
    requires FilterQuery(request).Ok?
    ensures var q := FilterQuery(request).value;
            Placeholders(FilterSql(q.conditions)) == |q.params| == |q.conditions|
  {
    PartsOnePlaceholderEach(request);
    SqlPlaceholders(FilterQuery(request).value);
  }

  /** The year condition always comes first and binds the given year. */
  lemma FilterStartsWithYear(request: map<string, Value>)
    requires FilterQuery(request).Ok?
    ensures var q := FilterQuery(request).value;
            q.conditions != [] && q.conditions[0] == Comparison("fiscal_year", Eq) &&
            q.params != [] && q.params[0] == Get(request, "fiscal_year")
  {
    var q := FilterQuery(request).value;
    var date := DatePart(Get(request, "fiscal_year"), Get(request, "fiscal_month"));
    assert q.conditions[..|date.conditions|] == date.conditions;
    assert q.params[..|date.params|] == date.params;
  }
}
