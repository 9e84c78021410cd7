/** Request-validation helpers shared by the API endpoints
    (backend/utils/helpers.py): pagination clamping, field whitelisting,
    keyword-based input rejection and database-error classification. */
module Helpers {
  import opened PyText

  /** The triple `(page, page_size, offset)` returned by pagination validation. */
  datatype Pagination = Pagination(page: int, pageSize: int, offset: int)

  const DefaultPageSize: int := 10

  /** `validate_pagination_params`: a page below 1 becomes 1, a page size
      below 1 becomes 10, and the page size is then capped at the maximum. */
  function ValidatePaginationParams(page: int, pageSize: int, maxPageSize: int): (r: Pagination)
    ensures r.page >= 1 && r.pageSize <= maxPageSize
    ensures maxPageSize >= 1 ==> 1 <= r.pageSize
    ensures r.offset == (r.page - 1) * r.pageSize
    ensures maxPageSize >= 0 ==> r.offset >= 0
    ensures r.page == if page < 1 then 1 else page
    ensures pageSize < 1 ==> r.pageSize == if maxPageSize < DefaultPageSize then maxPageSize else DefaultPageSize
    ensures pageSize > maxPageSize ==> r.pageSize == maxPageSize
    ensures 1 <= pageSize <= maxPageSize ==> r.pageSize == pageSize
  {
    var p := if page < 1 then 1 else page;
    var s0 := if pageSize < 1 then DefaultPageSize else pageSize;
    var s := if s0 > maxPageSize then maxPageSize else s0;
    assert maxPageSize >= 0 ==> s >= 0 && p - 1 >= 0;
    MulNonNegative(p - 1, s);
    Pagination(p, s, (p - 1) * s)
  }

  lemma MulNonNegative(a: int, b: int)
    ensures a >= 0 && b >= 0 ==> a * b >= 0
  {
  }

  /** Validating an already validated pair changes nothing. */
  lemma PaginationIdempotent(page: int, pageSize: int, maxPageSize: int)
    requires maxPageSize >= 1
    ensures var r := ValidatePaginationParams(page, pageSize, maxPageSize);
            ValidatePaginationParams(r.page, r.pageSize, maxPageSize) == r
  {
  }

  /** `validate_field_name`: plain list membership. */
  function ValidateFieldName(field: string, validFields: seq<string>): (r: bool)
    ensures r <==> exists i :: 0 <= i < |validFields| && validFields[i] == field
  {
    field in validFields
  }

  const DangerousKeywords: seq<string> :=
    ["DROP", "DELETE", "UPDATE", "INSERT", "CREATE", "ALTER",
     "EXEC", "EXECUTE", "UNION", "SELECT", "SCRIPT"]

  /** Some listed keyword occurs anywhere in the upper-cased input, also
      inside a longer word. */
  predicate HasDangerousKeyword(s: string) {
    exists k :: k in DangerousKeywords && Contains(Upper(s), k)
  }

  /** `sanitize_sql_input`: empty for empty input or input holding a keyword,
      otherwise the input with surrounding whitespace removed. */
  function SanitizeSqlInput(input: string): (r: string)
    ensures r == "" || r == Strip(input)
    ensures input == "" || HasDangerousKeyword(input) ==> r == ""
    ensures !HasDangerousKeyword(input) ==> r == Strip(input)
  {
    if input == "" then ""
    else if HasDangerousKeyword(input) then ""
    else Strip(input)
  }

  /** A word found in the stripped, upper-cased text is found in the
      upper-cased text. */
  lemma ContainsAfterStrip(s: string, k: string)
    requires Contains(Upper(Strip(s)), k)
    ensures Contains(Upper(s), k)
  {
    var a, b := UpperStripIsSlice(s);
    ContainsInSlice(Upper(s), a, b, k);
  }

  /** Upper-casing the stripped text gives a slice of the upper-cased text. */
  lemma UpperStripIsSlice(s: string) returns (a: nat, b: nat)
    ensures a <= b <= |s| && Upper(Strip(s)) == Upper(s)[a..b]
  {
    a := StripIsSlice(s);
    b := a + |Strip(s)|;
    var t := Strip(s);
    assert t == s[a..b];
    UpperSlice(s, a, b);
    assert Upper(t) == Upper(s[a..b]);
  }


  lemma KeywordInStripped(s: string)
    ensures HasDangerousKeyword(Strip(s)) ==> HasDangerousKeyword(s)
  {
    if HasDangerousKeyword(Strip(s)) {
      var k :| k in DangerousKeywords && Contains(Upper(Strip(s)), k);
      ContainsAfterStrip(s, k);
    }
  }


  /** Sanitising twice gives the same result as sanitising once. */
  lemma SanitizeSqlInputIdempotent(input: string)
    ensures SanitizeSqlInput(SanitizeSqlInput(input)) == SanitizeSqlInput(input)
  {
    var r := SanitizeSqlInput(input);
    if r != "" {
      KeywordInStripped(input);
      StripIdempotent(input);
    }
  }

  /** Rejection is by substring, so an ordinary word such as "updated" is refused. */
  lemma SubstringKeywordRejected()
    ensures SanitizeSqlInput("updated") == ""
  {
    var u := Upper("updated");
    assert u[..6] == "UPDATE" by {
      assert u[0] == 'U' && u[1] == 'P' && u[2] == 'D' && u[3] == 'A' && u[4] == 'T' && u[5] == 'E';
    }
    assert OccursAt(u, "UPDATE", 0);
    assert "UPDATE" in DangerousKeywords;
  }

  const NoSuchTable := "no such table"
  const DatabaseIsLocked := "database is locked"

  /** The error response built by `handle_database_error`. */
  datatype ErrorResponse = ErrorResponse(success: bool, error: string, code: string)

  /** `handle_database_error`, applied to the text of the exception. */
  function HandleDatabaseError(message: string): (r: ErrorResponse)
    ensures !r.success
    ensures r.code == "TABLE_NOT_FOUND" <==> Contains(Lower(message), NoSuchTable)
    ensures r.code == "DATABASE_LOCKED" <==>
              !Contains(Lower(message), NoSuchTable) && Contains(Lower(message), DatabaseIsLocked)
    ensures r.code == "DATABASE_ERROR" <==>
              !Contains(Lower(message), NoSuchTable) && !Contains(Lower(message), DatabaseIsLocked)
  {
    var text := Lower(message);
    if Contains(text, NoSuchTable) then
      ErrorResponse(false, "Database table not found. Please initialize the database.", "TABLE_NOT_FOUND")
    else if Contains(text, DatabaseIsLocked) then
      ErrorResponse(false, "Database is currently busy. Please try again.", "DATABASE_LOCKED")
    else
      ErrorResponse(false, "Database operation failed.", "DATABASE_ERROR")
  }
}
