/** The query builders of backend/api/search.py: the keyword search over a
    whitelist of columns, the parsing of the `fields` request parameter,
    the `/search` endpoint that chooses between a preview and a keyword
    search, and the condition list of `/search/advanced`. Each stops where
    the SQL text and its parameters are handed to sqlite. */
module Search {
  import opened Wrappers
  import opened PyText
  import opened Values
  import DataPipeline

  /** The WHERE clause of a keyword search and the parameters of the whole
      statement, in order. */
  datatype SearchQuery = SearchQuery(whereClause: string, params: seq<Param>)

  /** The statuses of the `HTTPException`s these endpoints raise. */
  const InvalidRequest := 400
  const ServerError := 500
  const Unprocessable := 422

  /** The columns `search_nonprofits` matches against. */
  const SearchColumns: seq<string> := ["campus", "address", "city", "st", "zip"]

  /** The elements of `xs` that are in `allowed`, in their order. */
  function Keep(xs: seq<string>, allowed: seq<string>): (r: seq<string>)
    ensures |r| <= |xs|
    ensures forall k :: 0 <= k < |r| ==> r[k] in allowed
  {
    if xs == [] then []
    else Keep(xs[..|xs| - 1], allowed) + (if xs[|xs| - 1] in allowed then [xs[|xs| - 1]] else [])
  }

  lemma KeepAppend(xs: seq<string>, x: string, allowed: seq<string>)
    ensures Keep(xs + [x], allowed) == Keep(xs, allowed) + (if x in allowed then [x] else [])
  {
    assert (xs + [x])[..|xs|] == xs;
  }

  /** Keeping is exactly the intersection with the allowed names. */
  lemma {:induction false} KeepMember(xs: seq<string>, allowed: seq<string>, x: string)
    ensures x in Keep(xs, allowed) <==> x in xs && x in allowed
  {
    if xs != [] {
      var init := xs[..|xs| - 1];
      KeepMember(init, allowed, x);
      assert xs == init + [xs[|xs| - 1]];
    }
  }

  /** `field LIKE ?`. */
  function LikeCondition(field: string): (r: string)
    ensures Placeholders(r) == Placeholders(field) + 1
  {
    PlaceholdersAppend(field, " LIKE ");
    PlaceholdersAppend(field + " LIKE ", "?");
    NoPlaceholders(" LIKE ");
    OnePlaceholder();
    field + " LIKE " + "?"
  }

  /** One `LIKE` condition per field, in order. */
  function Likes(fields: seq<string>): (r: seq<string>)
    ensures |r| == |fields| && forall k :: 0 <= k < |r| ==> r[k] == LikeCondition(fields[k])
  {
    seq(|fields|, k requires 0 <= k < |fields| => LikeCondition(fields[k]))
  }

  lemma LikesAppend(fields: seq<string>, f: string)
    ensures Likes(fields + [f]) == Likes(fields) + [LikeCondition(f)]
  {
    var l, r := Likes(fields + [f]), Likes(fields) + [LikeCondition(f)];
    assert |l| == |r|;
    forall k | 0 <= k < |l| ensures l[k] == r[k] {
      if k < |fields| {
        assert (fields + [f])[k] == fields[k];
      }
    }
  }

  /** `n` copies of the parameter `%query%`. */
  function Patterns(query: string, n: nat): (r: seq<Param>)
    ensures |r| == n && forall k :: 0 <= k < n ==> r[k] == Plain(Str("%" + query + "%"))
  {
    seq(n, _ => Plain(Str("%" + query + "%")))
  }

  /** Three placeholders, each after a text without one. */
  lemma ThreePlaceholders(a: string, b: string, c: string)
    requires '?' !in a && '?' !in b && '?' !in c
    ensures Placeholders(a + "?" + b + "?" + c + "?") == 3
  {
    NoPlaceholders(a);
    NoPlaceholders(b);
    NoPlaceholders(c);
    OnePlaceholder();
    PlaceholdersAppend(a, "?");
    PlaceholdersAppend(a + "?", b);
    PlaceholdersAppend(a + "?" + b, "?");
    PlaceholdersAppend(a + "?" + b + "?", c);
    PlaceholdersAppend(a + "?" + b + "?" + c, "?");
  }

  lemma PatternsAppend(query: string, n: nat)
    ensures Patterns(query, n + 1) == Patterns(query, n) + [Plain(Str("%" + query + "%"))]
  {
  }

  /** The ordering and limit that follow the keyword conditions: two
      prefix matches rank the rows, and the limit is bound last. */
  function SearchTail(): string
  {
    RankByCampus() + "?" + RankByAddress() + "?" + RankRest() + "?"
  }

  function RankByCampus(): (r: string)
    ensures '?' !in r
  {
    " ORDER BY CASE " + "WHEN campus LIKE "
  }

  function RankByAddress(): (r: string)
    ensures '?' !in r
  {
    " THEN 1 " + "WHEN address LIKE "
  }

  function RankRest(): (r: string)
    ensures '?' !in r
  {
    " THEN 2 ELSE 3 END, " + "campus LIMIT "
  }

  function SearchHead(): (r: string)
    ensures '?' !in r
  {
    "SELECT * FROM " + "nonprofits WHERE "
  }

  /** The keyword search for a WHERE clause. */
  function SearchSql(whereClause: string): string
  {
    SearchHead() + whereClause + SearchTail()
  }

  /** The ranking and the limit bind three parameters after the WHERE clause. */
  lemma SearchSqlPlaceholders(whereClause: string)
    ensures Placeholders(SearchSql(whereClause)) == Placeholders(whereClause) + 3
  {
    ThreePlaceholders(RankByCampus(), RankByAddress(), RankRest());
    NoPlaceholders(SearchHead());
    PlaceholdersAppend(SearchHead(), whereClause);
    PlaceholdersAppend(SearchHead() + whereClause, SearchTail());
  }

  /** The fields searched when the caller names none. */
  function SearchedFields(fields: Option<seq<string>>): seq<string>
  {
    if fields.None? then SearchColumns else fields.value
  }

  /** What `search_nonprofits` sends to sqlite, or the 400 it raises when
      no field survives the whitelist. */
  function SearchStatement(query: string, fields: Option<seq<string>>, limit: int): Result<SearchQuery, int>
  {
    var kept := Keep(SearchedFields(fields), SearchColumns);
    if kept == [] then Err(InvalidRequest)
    else
      var tail := [Plain(Str(query + "%")), Plain(Str(query + "%")), Plain(Int(limit))];
      Ok(SearchQuery(Join(" OR ", Likes(kept)), Patterns(query, |kept|) + tail))
  }

  /** `search_nonprofits` up to the query: a `LIKE` condition for every
      whitelisted field, joined with ` OR `, then the ranking parameters. */
  method SearchNonprofits(query: string, fields: Option<seq<string>>, limit: int) returns (r: Result<SearchQuery, int>)
    ensures r == SearchStatement(query, fields, limit)
  {
    var fs := if fields.None? then SearchColumns else fields.value;
    var conditions: seq<string> := [];
    var params: seq<Param> := [];
    var i := 0;
    while i < |fs|
      invariant 0 <= i <= |fs|
      invariant conditions == Likes(Keep(fs[..i], SearchColumns))
      invariant params == Patterns(query, |conditions|)
    {
      LikesStep(fs, i, SearchColumns);
      if fs[i] in SearchColumns {
        conditions := conditions + [LikeCondition(fs[i])];
        PatternsAppend(query, |params|);
        params := params + [Plain(Str("%" + query + "%"))];
      }
      i := i + 1;
    }
    assert fs[..|fs|] == fs;
    if conditions == [] {
      return Err(InvalidRequest);
    }
    var whereClause := Join(" OR ", conditions);
    params := params + [Plain(Str(query + "%")), Plain(Str(query + "%")), Plain(Int(limit))];
    r := Ok(SearchQuery(whereClause, params));
  }

  /** One more requested field adds its `LIKE` condition when it is allowed. */
  lemma LikesStep(fs: seq<string>, i: nat, allowed: seq<string>)
    requires i < |fs|
    ensures Likes(Keep(fs[..i + 1], allowed)) ==
            Likes(Keep(fs[..i], allowed)) + (if fs[i] in allowed then [LikeCondition(fs[i])] else [])
  {
    var kept := Keep(fs[..i], allowed);
    assert fs[..i + 1] == fs[..i] + [fs[i]];
    KeepAppend(fs[..i], fs[i], allowed);
    if fs[i] in allowed {
      LikesAppend(kept, fs[i]);
    } else {
      assert Likes(kept) + [] == Likes(kept);
    }
  }

  /** The search fails exactly when no requested field is whitelisted. */
  lemma SearchRejectsUnknownFields(query: string, fields: Option<seq<string>>, limit: int)
    ensures SearchStatement(query, fields, limit).Err? <==>
            forall f :: f in SearchedFields(fields) ==> f !in SearchColumns
    ensures SearchStatement(query, fields, limit).Err? ==> SearchStatement(query, fields, limit).error == InvalidRequest
  {
    var kept := Keep(SearchedFields(fields), SearchColumns);
    forall f ensures f in kept <==> f in SearchedFields(fields) && f in SearchColumns {
      KeepMember(SearchedFields(fields), SearchColumns, f);
    }
    if kept != [] {
      assert kept[0] in kept;
    }
  }

  /** One `LIKE` condition per whitelisted requested field, in request order. */
  lemma SearchMatchesWhitelistedFields(query: string, fields: Option<seq<string>>, limit: int, f: string)
    requires SearchStatement(query, fields, limit).Ok?
    ensures LikeCondition(f) in Likes(Keep(SearchedFields(fields), SearchColumns)) <==>
            f in SearchedFields(fields) && f in SearchColumns
  {
    var kept := Keep(SearchedFields(fields), SearchColumns);
    KeepMember(SearchedFields(fields), SearchColumns, f);
    if LikeCondition(f) in Likes(kept) {
      var k :| 0 <= k < |kept| && Likes(kept)[k] == LikeCondition(f);
      LikeInjective(kept[k], f);
    }
    if f in kept {
      var k :| 0 <= k < |kept| && kept[k] == f;
      assert Likes(kept)[k] == LikeCondition(f);
    }
  }

  lemma LikeInjective(a: string, b: string)
    requires LikeCondition(a) == LikeCondition(b)
    ensures a == b
  {
    assert |a| == |b|;
    assert a == LikeCondition(a)[..|a|];
  }

  /** The parameters are one `%q%` per condition, then `q%`, `q%` and the
      limit. */
  lemma SearchParameters(query: string, fields: Option<seq<string>>, limit: int)
    requires SearchStatement(query, fields, limit).Ok?
    ensures var ps := SearchStatement(query, fields, limit).value.params;
            |ps| >= 4 &&
            (forall k :: 0 <= k < |ps| - 3 ==> ps[k] == Plain(Str("%" + query + "%"))) &&
            ps[|ps| - 3..] == [Plain(Str(query + "%")), Plain(Str(query + "%")), Plain(Int(limit))]
  {
  }

  /** Whitelisted column names hold no `?`. */
  lemma SearchColumnsPlain(f: string)
    requires f in SearchColumns
    ensures '?' !in f
  {
  }

  /** Whitelisted fields joined with ` OR ` carry one placeholder each. */
  lemma WherePlaceholders(fields: seq<string>)
    requires forall k :: 0 <= k < |fields| ==> fields[k] in SearchColumns
    ensures Placeholders(Join(" OR ", Likes(fields))) == |fields|
  {
    var likes := Likes(fields);
    forall k | 0 <= k < |likes| ensures Placeholders(likes[k]) == 1 {
      SearchColumnsPlain(fields[k]);
      NoPlaceholders(fields[k]);
    }
    NoPlaceholders(" OR ");
    JoinPlaceholders(" OR ", likes);
  }

  /** The statement has exactly as many placeholders as parameters. */
  lemma SearchPlaceholdersMatch(query: string, fields: Option<seq<string>>, limit: int)
    requires SearchStatement(query, fields, limit).Ok?
    ensures var s := SearchStatement(query, fields, limit).value;
            Placeholders(SearchSql(s.whereClause)) == |s.params|
  {
    var kept := Keep(SearchedFields(fields), SearchColumns);
    var s := SearchStatement(query, fields, limit).value;
    assert s.whereClause == Join(" OR ", Likes(kept)) && |s.params| == |kept| + 3;
    WherePlaceholders(kept);
    SearchSqlPlaceholders(s.whereClause);
  }

  // search_api

  /** The fields `search_api` accepts. */
  const ValidFields: seq<string> :=
    ["campus", "address", "city", "st", "zip", "part_i_summary_12_total_revenue_cy", "employees"]

  /** The fields searched when the request names no valid one. */
  const DefaultFields: seq<string> := ["campus", "address", "city", "st"]

  const DefaultFieldsText := "campus,address,city,st"

  /** Some comma-separated piece of the request names `f` once stripped. */
  predicate Named(pieces: seq<string>, f: string) {
    exists k :: 0 <= k < |pieces| && Strip(pieces[k]) == f
  }

  /** The stripped, non-blank pieces of a comma-separated list, in order. */
  function Pieces(parts: seq<string>): (r: seq<string>)
    ensures forall k :: 0 <= k < |r| ==> r[k] != ""
  {
    if parts == [] then []
    else
      var last := Strip(parts[|parts| - 1]);
      Pieces(parts[..|parts| - 1]) + (if last != "" then [last] else [])
  }

  /** Every piece comes from one part, stripped. */
  lemma {:induction false} PiecesMember(parts: seq<string>, x: string)
    ensures x in Pieces(parts) <==> x != "" && Named(parts, x)
  {
    if parts != [] {
      var init, last := parts[..|parts| - 1], parts[|parts| - 1];
      assert parts == init + [last];
      PiecesMember(init, x);
      NamedStep(init, last, x);
    }
  }

  lemma NamedStep(init: seq<string>, last: string, x: string)
    ensures Named(init + [last], x) <==> Named(init, x) || Strip(last) == x
  {
    var parts := init + [last];
    if Named(parts, x) && Strip(last) != x {
      var k :| 0 <= k < |parts| && Strip(parts[k]) == x;
      assert k < |init| && Strip(init[k]) == x;
    }
    if Named(init, x) {
      var k :| 0 <= k < |init| && Strip(init[k]) == x;
      assert Strip(parts[k]) == x;
    }
    if Strip(last) == x {
      assert Strip(parts[|init|]) == x;
    }
  }

  /** The field list of `search_api`: the default text for a missing or
      empty parameter, then the valid stripped pieces, or the default
      fields when none is valid. */
  function ParseFields(fields: Option<string>): (r: seq<string>)
    ensures r != []
    ensures forall k :: 0 <= k < |r| ==> r[k] in ValidFields
  {
    ChooseFields(Pieces(Split(FieldsText(fields), ',')))
  }

  /** The parameter's text, or the default list when it is missing or empty. */
  function FieldsText(fields: Option<string>): string
  {
    if fields.None? || fields.value == "" then DefaultFieldsText else fields.value
  }

  /** The valid pieces, or the default fields when none is valid. */
  function ChooseFields(pieces: seq<string>): (r: seq<string>)
    ensures r != []
    ensures forall k :: 0 <= k < |r| ==> r[k] in ValidFields
  {
    var kept := Keep(pieces, ValidFields);
    if kept == [] then DefaultFields else kept
  }

  lemma KeptFields(pieces: seq<string>, g: string)
    ensures g in Keep(Pieces(pieces), ValidFields) <==> g in ValidFields && Named(pieces, g)
  {
    KeepMember(Pieces(pieces), ValidFields, g);
    PiecesMember(pieces, g);
    if g in ValidFields {
      ValidFieldsAreNames(g);
    }
  }

  /** A valid field is kept exactly when some piece of the request names
      it; without any valid piece the default fields are used. */
  lemma ParseFieldsKeepsValidPieces(text: string, f: string)
    requires text != ""
    ensures var pieces := Split(text, ',');
            var anyValid := exists g :: g in ValidFields && Named(pieces, g);
            (anyValid ==> (f in ParseFields(Some(text)) <==> f in ValidFields && Named(pieces, f))) &&
            (!anyValid ==> ParseFields(Some(text)) == DefaultFields)
  {
    var pieces := Split(text, ',');
    var kept := Keep(Pieces(pieces), ValidFields);
    assert FieldsText(Some(text)) == text;
    KeptFields(pieces, f);
    if kept != [] {
      KeptFields(pieces, kept[0]);
    } else if exists g :: g in ValidFields && Named(pieces, g) {
      var g :| g in ValidFields && Named(pieces, g);
      KeptFields(pieces, g);
    }
  }

  /** The accepted fields are plain column names. */
  lemma ValidFieldsAreNames(f: string)
    requires f in ValidFields
    ensures f != [] && forall k :: 0 <= k < |f| ==> DataPipeline.NameChar(f[k])
  {
  }

  /** A valid field name has no comma and no surrounding blanks. */
  lemma FieldIsBare(f: string)
    requires f in ValidFields
    ensures f != "" && ',' !in f && Strip(f) == f
  {
    ValidFieldsAreNames(f);
    assert !IsSpace(f[0]) && !IsSpace(f[|f| - 1]);
    StripWhereKeepsClean(f, IsSpace);
  }

  /** A lone bare piece survives the stripping. */
  lemma PiecesSingle(f: string)
    requires f != "" && Strip(f) == f
    ensures Pieces([f]) == [f]
  {
    assert [f][..0] == [];
  }

  /** A lone allowed piece is kept. */
  lemma KeepSingle(f: string, allowed: seq<string>)
    requires f in allowed
    ensures Keep([f], allowed) == [f]
  {
    assert [f][..0] == [];
  }

  /** A valid field named alone is the whole field list. */
  lemma ParseSingleField(f: string)
    requires f in ValidFields
    ensures ParseFields(Some(f)) == [f]
  {
    FieldIsBare(f);
    KeepSingle(f, ValidFields);
    ParseBareField(f);
  }

  /** A bare, kept piece given alone is the whole field list. */
  lemma ParseBareField(f: string)
    requires f != "" && ',' !in f && Strip(f) == f
    requires Keep([f], ValidFields) == [f]
    ensures ParseFields(Some(f)) == [f]
  {
    GivenFieldsText(f);
    SplitWithoutSeparator(f, ',');
    PiecesSingle(f);
    KeptChosen(f);
  }

  lemma GivenFieldsText(f: string)
    requires f != ""
    ensures FieldsText(Some(f)) == f
  {
  }

  lemma KeptChosen(f: string)
    requires Keep([f], ValidFields) == [f]
    ensures ChooseFields([f]) == [f]
  {
  }

  /** The preview: the first rows by campus. */
  function PreviewSql(): string
  {
    PreviewHead() + "?"
  }

  function PreviewHead(): (r: string)
    ensures '?' !in r
  {
    "SELECT * FROM " + "nonprofits " + "ORDER BY campus " + "LIMIT "
  }

  lemma PreviewSqlPlaceholders()
    ensures Placeholders(PreviewSql()) == 1
  {
    NoPlaceholders(PreviewHead());
    PlaceholdersAppend(PreviewHead(), "?");
    OnePlaceholder();
  }

  /** The statement `search_api` runs: the preview, bound to the limit, or
      a keyword search. */
  datatype Plan = Preview(limit: int) | Keyword(search: SearchQuery)

  /** What `search_api` answers with: the query as it echoes it, the field
      list, and the statement it runs. */
  datatype SearchResponse = SearchResponse(query: string, fields: seq<string>, plan: Plan)

  /** `search_api`: a limit outside 1..1000 fails validation; a blank
      keyword previews; otherwise the keyword search runs, its 400 surfacing
      as a 500 through the generic handler. */
  function SearchApi(q: string, fields: Option<string>, limit: int): (r: Result<SearchResponse, int>)
    ensures !(1 <= limit <= 1000) ==> r == Err(Unprocessable)
    ensures r.Err? ==> r.error == Unprocessable || r.error == ServerError
    // the echoed query is empty for a blank keyword and the keyword as given otherwise
    ensures r.Ok? ==> (r.value.query == "" <==> Strip(q) == "") && (r.value.query != "" ==> r.value.query == q)
    // the field list is never empty and holds only accepted columns
    ensures r.Ok? ==> r.value.fields != [] && forall k :: 0 <= k < |r.value.fields| ==> r.value.fields[k] in ValidFields
    // a blank keyword previews with the requested limit; any other keyword searches
    ensures r.Ok? ==> (r.value.plan.Preview? <==> Strip(q) == "") && (r.value.plan.Preview? ==> r.value.plan.limit == limit)
  {
    if !(1 <= limit <= 1000) then Err(Unprocessable)
    else
      var query := if Strip(q) == "" then "" else q;
      var fieldList := ParseFields(fields);
      if query == "" then Ok(SearchResponse(query, fieldList, Preview(limit)))
      else match SearchStatement(query, Some(fieldList), limit)
        case Err(_) => Err(ServerError)
        case Ok(s) => Ok(SearchResponse(query, fieldList, Keyword(s)))
  }

  /** A blank keyword takes the preview path, whatever the fields. */
  lemma BlankQueryPreviews(q: string, fields: Option<string>, limit: int)
    requires 1 <= limit <= 1000
    requires forall k :: 0 <= k < |q| ==> IsSpace(q[k])
    ensures var r := SearchApi(q, fields, limit);
            r.Ok? && r.value.query == "" && r.value.plan == Preview(limit)
  {
  }

  /** The limit is validated before anything else. */
  lemma LimitOutOfRangeRejected(q: string, fields: Option<string>, limit: int)
    ensures SearchApi(q, fields, limit) == Err(Unprocessable) <==> !(1 <= limit <= 1000)
  {
  }

  /** A non-blank keyword is searched as given, unstripped, over the parsed
      fields; the search fails with 500 exactly when none of them is one of
      the keyword-search columns. */
  lemma KeywordSearch(q: string, fields: Option<string>, limit: int)
    requires 1 <= limit <= 1000
    requires Strip(q) != ""
    ensures var r := SearchApi(q, fields, limit);
            (r.Err? <==> forall f :: f in ParseFields(fields) ==> f !in SearchColumns) &&
            (r.Err? ==> r.error == ServerError) &&
            (r.Ok? ==> r.value.query == q && r.value.plan == Keyword(SearchStatement(q, Some(ParseFields(fields)), limit).value))
  {
    var fieldList := ParseFields(fields);
    var search := SearchStatement(q, Some(fieldList), limit);
    assert SearchApi(q, fields, limit) ==
      match search
      case Err(_) => Err(ServerError)
      case Ok(s) => Ok(SearchResponse(q, fieldList, Keyword(s)));
    SearchRejectsUnknownFields(q, Some(fieldList), limit);
  }

  /** The revenue and employee columns pass `search_api`'s check but not the
      keyword search's, so a keyword search over one of them alone fails
      with 500. */
  lemma ExtraFieldSearchFails(q: string, f: string, limit: int)
    requires 1 <= limit <= 1000 && Strip(q) != ""
    requires f in ValidFields && f !in SearchColumns
    ensures SearchApi(q, Some(f), limit) == Err(ServerError)
  {
    ParseSingleField(f);
    KeywordSearch(q, Some(f), limit);
  }

  // advanced_search

  /** The query parameters of `/search/advanced`; `None` where absent. */
  datatype AdvancedRequest = AdvancedRequest(
    name: Option<string>, state: Option<string>, city: Option<string>,
    fiscalYear: Option<int>, fiscalMonth: Option<int>,
    minIncome: Option<real>, maxIncome: Option<real>,
    limit: int)

  /** The conditions `advanced_search` may add. */
  datatype Criterion = NameLike | StateIs | CityLike | YearIs | MonthIs | MinIncome | MaxIncome

  /** Every condition, in the order the endpoint adds them. */
  const Criteria: seq<Criterion> := [NameLike, StateIs, CityLike, YearIs, MonthIs, MinIncome, MaxIncome]

  /** Truthiness of an optional text: present and not empty. */
  predicate Given(s: Option<string>) {
    s.Some? && s.value != ""
  }

  /** Which conditions a request asks for: the texts by truthiness, the
      numbers whenever present. */
  function Mask(req: AdvancedRequest): (r: seq<bool>)
    ensures |r| == |Criteria|
  {
    [Given(req.name), Given(req.state), Given(req.city), req.fiscalYear.Some?, req.fiscalMonth.Some?,
     req.minIncome.Some?, req.maxIncome.Some?]
  }

  /** The parameter each condition binds; a masked-out condition's entry
      is never used. */
  function CriterionValues(req: AdvancedRequest): (r: seq<Param>)
    ensures |r| == |Criteria|
  {
    [Plain(Str("%" + req.name.GetOr("") + "%")),
     Plain(Str(Upper(req.state.GetOr("")))),
     Plain(Str("%" + req.city.GetOr("") + "%")),
     Plain(Int(req.fiscalYear.GetOr(0))),
     Plain(Int(req.fiscalMonth.GetOr(0))),
     Plain(Float(req.minIncome.GetOr(0.0))),
     Plain(Float(req.maxIncome.GetOr(0.0)))]
  }

  /** The conditions and parameters `advanced_search` sends to sqlite. */
  datatype Advanced = Advanced(criteria: seq<Criterion>, params: seq<Param>)

  /** The requested conditions in the order the endpoint adds them, their
      parameters in the same order, and the limit last; a limit outside
      1..1000 fails validation first. */
  function AdvancedQuery(req: AdvancedRequest): Result<Advanced, int>
  {
    if !(1 <= req.limit <= 1000) then Err(Unprocessable)
    else
      Ok(Advanced(DataPipeline.Select(Criteria, Mask(req)),
                  DataPipeline.Select(CriterionValues(req), Mask(req)) + [Plain(Int(req.limit))]))
  }


  /** The text of a condition before its placeholder. */
  function CriterionText(c: Criterion): (r: string)
    ensures '?' !in r
  {
    match c
    case NameLike => "campus LIKE "
    case StateIs => "st = "
    case CityLike => "city LIKE "
    case YearIs => "fiscal_year = "
    case MonthIs => "fiscal_month = "
    case MinIncome => "part_i_summary_12_" + "total_revenue_cy >= "
    case MaxIncome => "part_i_summary_12_" + "total_revenue_cy <= "
  }

  /** A condition of `advanced_search`, with its one placeholder. */
  function CriterionSql(c: Criterion): (r: string)
    ensures Placeholders(r) == 1
  {
    NoPlaceholders(CriterionText(c));
    PlaceholdersAppend(CriterionText(c), "?");
    OnePlaceholder();
    CriterionText(c) + "?"
  }

  /** The WHERE clause: the conditions joined with ` AND `, or `1=1`. */
  function AdvancedWhere(criteria: seq<Criterion>): string
  {
    if criteria == [] then "1=1"
    else Join(" AND ", seq(|criteria|, k requires 0 <= k < |criteria| => CriterionSql(criteria[k])))
  }

  function AdvancedHead(): (r: string)
    ensures '?' !in r
  {
    "SELECT * FROM " + "nonprofits WHERE "
  }

  function AdvancedTail(): (r: string)
    ensures '?' !in r
  {
    " ORDER BY part_i_" + "summary_12_total_" + "revenue_cy DESC, " + "campus LIMIT "
  }

  /** The statement for a WHERE clause, the limit bound last. */
  function AdvancedSql(whereClause: string): string
  {
    AdvancedHead() + whereClause + AdvancedTail() + "?"
  }

  /** One branch of `advanced_search`: when the filter is present, its
      condition and its parameter are appended. */
  method AddCriterion(criteria: seq<Criterion>, params: seq<Param>, present: bool, c: Criterion, p: Param)
    returns (criteria': seq<Criterion>, params': seq<Param>)
    ensures criteria' == criteria + Opt(present, c)
    ensures params' == params + Opt(present, p)
  {
    criteria', params' := criteria, params;
    if present {
      criteria' := criteria' + [c];
      params' := params' + [p];
    }
  }

  /** The kept elements among the first `k`, gathered left to right. */
  function Gather<T>(xs: seq<T>, keep: seq<bool>, k: nat): seq<T>
    requires |xs| == |keep| && k <= |xs|
  {
    if k == 0 then [] else Gather(xs, keep, k - 1) + Opt(keep[k - 1], xs[k - 1])
  }

  lemma {:induction false} GatherSelects<T>(xs: seq<T>, keep: seq<bool>, k: nat)
    requires |xs| == |keep| && k <= |xs|
    ensures Gather(xs, keep, k) == DataPipeline.Select(xs[..k], keep[..k])
  {
    if k > 0 {
      GatherSelects(xs, keep, k - 1);
      DataPipeline.SelectPrefix(xs, keep, k - 1);
    }
  }
  lemma GatherSelectsAll<T>(xs: seq<T>, keep: seq<bool>)
    requires |xs| == |keep|
    ensures Gather(xs, keep, |xs|) == DataPipeline.Select(xs, keep)
  {
    GatherSelects(xs, keep, |xs|);
    assert xs[..|xs|] == xs && keep[..|xs|] == keep;
  }

  /** Seven gathered positions, written out. */
  lemma GatherSeven<T>(xs: seq<T>, keep: seq<bool>)
    requires |xs| == |keep| == 7
    ensures Gather(xs, keep, 7) ==
            Opt(keep[0], xs[0]) + Opt(keep[1], xs[1]) + Opt(keep[2], xs[2]) + Opt(keep[3], xs[3]) +
            Opt(keep[4], xs[4]) + Opt(keep[5], xs[5]) + Opt(keep[6], xs[6])
  {
    assert Gather(xs, keep, 1) == Opt(keep[0], xs[0]);
    assert Gather(xs, keep, 2) == Gather(xs, keep, 1) + Opt(keep[1], xs[1]);
    assert Gather(xs, keep, 3) == Gather(xs, keep, 2) + Opt(keep[2], xs[2]);
    assert Gather(xs, keep, 4) == Gather(xs, keep, 3) + Opt(keep[3], xs[3]);
    assert Gather(xs, keep, 5) == Gather(xs, keep, 4) + Opt(keep[4], xs[4]);
    assert Gather(xs, keep, 6) == Gather(xs, keep, 5) + Opt(keep[5], xs[5]);
    assert Gather(xs, keep, 7) == Gather(xs, keep, 6) + Opt(keep[6], xs[6]);
  }

  /** The selected conditions, branch by branch. */
  lemma AdvancedChosen(req: AdvancedRequest)
    ensures DataPipeline.Select(Criteria, Mask(req)) ==
            Opt(Given(req.name), NameLike) + Opt(Given(req.state), StateIs) + Opt(Given(req.city), CityLike) + Opt(req.fiscalYear.Some?, YearIs) + Opt(req.fiscalMonth.Some?, MonthIs) + Opt(req.minIncome.Some?, MinIncome) + Opt(req.maxIncome.Some?, MaxIncome)
  {
    GatherSelectsAll(Criteria, Mask(req));
    GatherSeven(Criteria, Mask(req));
  }


  /** The selected parameters, branch by branch. */
  lemma AdvancedBound(req: AdvancedRequest)
    ensures DataPipeline.Select(CriterionValues(req), Mask(req)) ==
            Opt(Given(req.name), Plain(Str("%" + req.name.GetOr("") + "%"))) + Opt(Given(req.state), Plain(Str(Upper(req.state.GetOr(""))))) + Opt(Given(req.city), Plain(Str("%" + req.city.GetOr("") + "%"))) + Opt(req.fiscalYear.Some?, Plain(Int(req.fiscalYear.GetOr(0)))) + Opt(req.fiscalMonth.Some?, Plain(Int(req.fiscalMonth.GetOr(0)))) + Opt(req.minIncome.Some?, Plain(Float(req.minIncome.GetOr(0.0)))) + Opt(req.maxIncome.Some?, Plain(Float(req.maxIncome.GetOr(0.0))))
  {
    GatherSelectsAll(CriterionValues(req), Mask(req));
    GatherSeven(CriterionValues(req), Mask(req));
  }


  /** `advanced_search` up to the query: the filters in the order of the
      endpoint's branches, then the limit. */
  method AdvancedSearch(req: AdvancedRequest) returns (r: Result<Advanced, int>)
    ensures r == AdvancedQuery(req)
  {
    if !(1 <= req.limit <= 1000) {
      return Err(Unprocessable);
    }
    var criteria: seq<Criterion> := [];
    var params: seq<Param> := [];
    criteria, params := AddCriterion(criteria, params, Given(req.name), NameLike, Plain(Str("%" + req.name.GetOr("") + "%")));
    assert criteria == Opt(Given(req.name), NameLike) && params == Opt(Given(req.name), Plain(Str("%" + req.name.GetOr("") + "%")));
    criteria, params := AddCriterion(criteria, params, Given(req.state), StateIs, Plain(Str(Upper(req.state.GetOr("")))));
    criteria, params := AddCriterion(criteria, params, Given(req.city), CityLike, Plain(Str("%" + req.city.GetOr("") + "%")));
    criteria, params := AddCriterion(criteria, params, req.fiscalYear.Some?, YearIs, Plain(Int(req.fiscalYear.GetOr(0))));
    criteria, params := AddCriterion(criteria, params, req.fiscalMonth.Some?, MonthIs, Plain(Int(req.fiscalMonth.GetOr(0))));
    criteria, params := AddCriterion(criteria, params, req.minIncome.Some?, MinIncome, Plain(Float(req.minIncome.GetOr(0.0))));
    criteria, params := AddCriterion(criteria, params, req.maxIncome.Some?, MaxIncome, Plain(Float(req.maxIncome.GetOr(0.0))));
    AdvancedChosen(req);
    AdvancedBound(req);
    params := params + [Plain(Int(req.limit))];
    r := Ok(Advanced(criteria, params));
  }

  /** The position of a condition among the endpoint's branches. */
  function Rank(c: Criterion): (i: nat)
    ensures i < |Criteria| && Criteria[i] == c
  {
    match c
    case NameLike => 0
    case StateIs => 1
    case CityLike => 2
    case YearIs => 3
    case MonthIs => 4
    case MinIncome => 5
    case MaxIncome => 6
  }

  /** Each condition sits at one branch only. */
  lemma RankUnique(c: Criterion, i: int)
    requires 0 <= i < |Criteria| && Criteria[i] == c
    ensures i == Rank(c)
  {
  }

  /** A condition is in the query exactly when its filter was given. */
  lemma AdvancedAddsExactlyGivenFilters(req: AdvancedRequest, c: Criterion)
    requires AdvancedQuery(req).Ok?
    ensures c in AdvancedQuery(req).value.criteria <==> Mask(req)[Rank(c)]
  {
    DataPipeline.SelectMember(Criteria, Mask(req), c);
    if c in AdvancedQuery(req).value.criteria {
      var i :| 0 <= i < |Criteria| && Mask(req)[i] && Criteria[i] == c;
      RankUnique(c, i);
    }
  }

  /** Two selections under one mask line up: their `j`-th elements come
      from the same position. */
  lemma {:induction false} SelectAligned<T, U>(xs: seq<T>, ys: seq<U>, keep: seq<bool>, j: nat)
    requires |xs| == |ys| == |keep| && j < |DataPipeline.Select(xs, keep)|
    ensures |DataPipeline.Select(ys, keep)| == |DataPipeline.Select(xs, keep)|
    ensures exists i :: 0 <= i < |xs| && keep[i] &&
              DataPipeline.Select(xs, keep)[j] == xs[i] && DataPipeline.Select(ys, keep)[j] == ys[i]
  {
    if keep[0] && j == 0 {
      assert DataPipeline.Select(xs, keep)[0] == xs[0] && DataPipeline.Select(ys, keep)[0] == ys[0];
    } else {
      var j' := if keep[0] then j - 1 else j;
      SelectAligned(xs[1..], ys[1..], keep[1..], j');
      var i :| 0 <= i < |xs[1..]| && keep[1..][i] &&
               DataPipeline.Select(xs[1..], keep[1..])[j'] == xs[1..][i] &&
               DataPipeline.Select(ys[1..], keep[1..])[j'] == ys[1..][i];
      assert DataPipeline.Select(xs, keep)[j] == xs[i + 1] && DataPipeline.Select(ys, keep)[j] == ys[i + 1];
    }
  }

  /** Every parameter but the limit is the one bound for the condition at
      the same position, and the limit comes last. */
  lemma AdvancedParamsAligned(req: AdvancedRequest, j: nat)
    requires AdvancedQuery(req).Ok? && j < |AdvancedQuery(req).value.criteria|
    ensures var a := AdvancedQuery(req).value;
            |a.params| == |a.criteria| + 1 && a.params[|a.criteria|] == Plain(Int(req.limit)) &&
            a.params[j] == CriterionValues(req)[Rank(a.criteria[j])]
  {
    SelectAligned(Criteria, CriterionValues(req), Mask(req), j);
    var i :| 0 <= i < |Criteria| && Mask(req)[i] &&
             DataPipeline.Select(Criteria, Mask(req))[j] == Criteria[i] &&
             DataPipeline.Select(CriterionValues(req), Mask(req))[j] == CriterionValues(req)[i];
    RankUnique(Criteria[i], i);
  }

  lemma AdvancedWherePlaceholders(criteria: seq<Criterion>)
    ensures Placeholders(AdvancedWhere(criteria)) == |criteria|
  {
    if criteria == [] {
      NoPlaceholders("1=1");
    } else {
      var parts := seq(|criteria|, k requires 0 <= k < |criteria| => CriterionSql(criteria[k]));
      NoPlaceholders(" AND ");
      JoinPlaceholders(" AND ", parts);
    }
  }

  lemma AdvancedSqlPlaceholders(whereClause: string)
    ensures Placeholders(AdvancedSql(whereClause)) == Placeholders(whereClause) + 1
  {
    NoPlaceholders(AdvancedHead());
    NoPlaceholders(AdvancedTail());
    OnePlaceholder();
    PlaceholdersAppend3(AdvancedHead(), whereClause, AdvancedTail());
    PlaceholdersAppend(AdvancedHead() + whereClause + AdvancedTail(), "?");
  }

  /** The statement has exactly as many placeholders as parameters. */
  lemma AdvancedPlaceholdersMatch(req: AdvancedRequest)
    requires AdvancedQuery(req).Ok?
    ensures var a := AdvancedQuery(req).value;
            Placeholders(AdvancedSql(AdvancedWhere(a.criteria))) == |a.params|
  {
    var a := AdvancedQuery(req).value;
    AdvancedWherePlaceholders(a.criteria);
    AdvancedSqlPlaceholders(AdvancedWhere(a.criteria));
  }

  /** Without filters every row qualifies (`1=1`) and only the limit is bound. */
  lemma NoFiltersSelectAll(req: AdvancedRequest)
    requires 1 <= req.limit <= 1000
    requires !Given(req.name) && !Given(req.state) && !Given(req.city)
    requires req.fiscalYear.None? && req.fiscalMonth.None? && req.minIncome.None? && req.maxIncome.None?
    ensures AdvancedQuery(req) == Ok(Advanced([], [Plain(Int(req.limit))]))
    ensures AdvancedWhere([]) == "1=1"
  {
    AdvancedChosen(req);
    AdvancedBound(req);
    var none: seq<Criterion> := [];
    assert DataPipeline.Select(Criteria, Mask(req)) == none + none + none + none + none + none + none == [];
    var unbound: seq<Param> := [];
    assert DataPipeline.Select(CriterionValues(req), Mask(req)) == unbound + unbound + unbound + unbound + unbound + unbound + unbound == [];
    assert unbound + [Plain(Int(req.limit))] == [Plain(Int(req.limit))];
  }
}
