/** The CSV ingestion pipeline of backend/data_pipeline.py: one column name per
    column is rebuilt from a four-row semantic header block, sanitised, fitted to
    the width of the data, the leading artifact column is dropped, repeated
    names get numeric suffixes, blank-named columns are dropped, and the
    cleaned table replaces the previous `nonprofits` table.

    The CSV file is modelled as its rows already split into cells; a cell is
    `None` where pandas reads a missing value (NaN). */
module DataPipeline {
  import opened Wrappers
  import opened PyText

  type Cell = Option<string>

  // ---------------------------------------------------------------------
  // sanitize_name
  // ---------------------------------------------------------------------

  predicate NameChar(c: char) {
    'a' <= c <= 'z' || '0' <= c <= '9' || c == '_'
  }

  predicate IsUnderscore(c: char) {
    c == '_'
  }

  /** No two adjacent underscores. */
  predicate NoDoubleUnderscore(s: string) {
    forall i :: 0 <= i < |s| - 1 ==> !DoubleAt(s, i)
  }

  /** Underscores at positions `i` and `i + 1`. */
  predicate DoubleAt(s: string, i: nat)
    requires i < |s| - 1
  {
    s[i] == '_' && s[i + 1] == '_'
  }

  /** The shape of a sanitised column name: only `[a-z0-9_]`, no underscore
      at either end and never two underscores in a row. */
  predicate CleanName(s: string) {
    && (forall i :: 0 <= i < |s| ==> NameChar(s[i]))
    && (s != [] ==> s[0] != '_' && s[|s| - 1] != '_')
    && NoDoubleUnderscore(s)
  }

  /** `re.sub(r'[^a-z0-9_]+', '_', s)`. `inRun` records that the previous
      character was part of a run already replaced by one underscore. */
  function ReplaceRuns(s: string, inRun: bool): (r: string)
    ensures forall i :: 0 <= i < |r| ==> NameChar(r[i])
    ensures (forall i :: 0 <= i < |s| ==> NameChar(s[i])) ==> r == s
  {
    if s == [] then []
    else if NameChar(s[0]) then [s[0]] + ReplaceRuns(s[1..], false)
    else if inRun then ReplaceRuns(s[1..], true)
    else "_" + ReplaceRuns(s[1..], true)
  }

  /** `re.sub(r'_+', '_', s)`. */
  function CollapseUnderscores(s: string): (r: string)
    ensures |r| <= |s| && (r == [] <==> s == [])
    ensures s != [] ==> r[0] == s[0] && r[|r| - 1] == s[|s| - 1]
    ensures (forall i :: 0 <= i < |s| ==> NameChar(s[i])) ==> forall i :: 0 <= i < |r| ==> NameChar(r[i])
    ensures NoDoubleUnderscore(r)
    ensures NoDoubleUnderscore(s) ==> r == s
  {
    if |s| <= 1 then s
    else if s[0] == '_' && s[1] == '_' then
      assert DoubleAt(s, 0);
      CollapseUnderscores(s[1..])
    else
      var t := CollapseUnderscores(s[1..]);
      assert t[0] == s[1];
      var r := [s[0]] + t;
      assert NoDoubleUnderscore(r) by {
        forall k | 0 <= k < |r| - 1 ensures !DoubleAt(r, k) {
          if k > 0 {
            assert r[k] == t[k - 1] && r[k + 1] == t[k];
            assert !DoubleAt(t, k - 1);
          }
        }
      }
      assert NoDoubleUnderscore(s) ==> NoDoubleUnderscore(s[1..]) by {
        if NoDoubleUnderscore(s) {
          forall k | 0 <= k < |s| - 2 ensures !DoubleAt(s[1..], k) {
            assert !DoubleAt(s, k + 1);
          }
        }
      }
      r
  }

  /** `sanitize_name`: lower-case, replace each run of other characters by one
      underscore, strip underscores at both ends, collapse repeated underscores. */
  function SanitizeName(name: string): (r: string)
    ensures CleanName(r)
  {
    var replaced := ReplaceRuns(Lower(name), false);
    var stripped := StripWhere(replaced, IsUnderscore);
    StripWhereKeepsNameChars(replaced);
    CollapseKeepsClean(stripped);
    CollapseUnderscores(stripped)
  }

  /** Only the characters a sanitised name may hold. */
  predicate NameChars(s: string) {
    forall i :: 0 <= i < |s| ==> NameChar(s[i])
  }

  /** No underscore at either end. */
  predicate Edged(s: string) {
    s != [] ==> !IsUnderscore(s[0]) && !IsUnderscore(s[|s| - 1])
  }

  lemma CollapseKeepsClean(s: string)
    requires NameChars(s) && Edged(s)
    ensures CleanName(CollapseUnderscores(s))
  {
  }

  lemma StripWhereKeepsNameChars(s: string)
    requires NameChars(s)
    ensures NameChars(StripWhere(s, IsUnderscore)) && Edged(StripWhere(s, IsUnderscore))
  {
    var r := StripWhere(s, IsUnderscore);
    var a := |s| - |DropLeading(s, IsUnderscore)|;
    assert r == s[a..a + |r|];
    forall i | 0 <= i < |r| ensures NameChar(r[i]) {
      assert s[a..a + |r|][i] == s[a + i];
    }
  }

  /** A name that already has the sanitised shape is left as it is. */
  lemma SanitizeNameKeepsClean(s: string)
    requires CleanName(s)
    ensures SanitizeName(s) == s
  {
    assert Lower(s) == s;
    assert ReplaceRuns(s, false) == s;
    StripWhereKeepsClean(s, IsUnderscore);
    assert CollapseUnderscores(s) == s;
  }

  /** Sanitising twice gives the same result as sanitising once. */
  lemma SanitizeNameIdempotent(name: string)
    ensures SanitizeName(SanitizeName(name)) == SanitizeName(name)
  {
    SanitizeNameKeepsClean(SanitizeName(name));
  }

  // ---------------------------------------------------------------------
  // is_pure_numeric and the header parts
  // ---------------------------------------------------------------------

  /** `is_pure_numeric`: present, non-blank after stripping, and all digits. */
  function IsPureNumeric(v: Cell): (b: bool)
    ensures b ==> v.Some? && ParseInt(v.value).Some? && ParseInt(v.value).value >= 0
  {
    v.Some? && Strip(v.value) != "" && IsDigits(Strip(v.value))
  }

  /** A text whose ends are not whitespace is its own strip. */
  lemma StripSolid(s: string)
    requires s != [] && !IsSpace(s[0]) && !IsSpace(s[|s| - 1])
    ensures Strip(s) == s
  {
    StripWhereKeepsClean(s, IsSpace);
  }

  /** The decimal text of a natural number is pure numeric and is kept as
      the line part unchanged. */
  lemma NumeralIsPureNumeric(n: nat)
    ensures IsPureNumeric(Some(NatToString(n))) && LinePart(Some(NatToString(n))) == NatToString(n)
  {
    StripSolid(NatToString(n));
  }

  /** A text with a character that is not a digit is not all digits. */
  lemma NotAllDigits(s: string, i: nat)
    requires i < |s| && !IsDigit(s[i])
    ensures !IsDigits(s)
  {
  }

  /** A signed numeral is not pure numeric: its line part is empty. */
  lemma SignedIsNotPureNumeric(n: nat)
    ensures !IsPureNumeric(Some("-" + NatToString(n)))
  {
    var d := NatToString(n);
    var m := "-" + d;
    assert m[|m| - 1] == d[|d| - 1];
    StripSolid(m);
    NotAllDigits(m, 0);
  }

  /** The text pandas gives a whole float, such as `1.0`, is not pure
      numeric: its line part is empty. */
  lemma FloatTextIsNotPureNumeric(n: nat)
    ensures !IsPureNumeric(Some(NatToString(n) + ".0"))
  {
    var d := NatToString(n);
    var f := d + ".0";
    assert f[0] == d[0] && f[|f| - 1] == '0' && f[|d|] == '.';
    StripSolid(f);
    NotAllDigits(f, |d|);
  }

  /** The line-number part of a column: the stripped text when it is a pure
      number, otherwise empty. */
  function LinePart(v: Cell): string
  {
    if IsPureNumeric(v) then Strip(v.value) else ""
  }

  /** A present cell whose text is not blank, taken as it is (not stripped);
      otherwise empty. */
  function NonBlank(v: Cell): string
  {
    if v.Some? && Strip(v.value) != "" then v.value else ""
  }

  /** One column of the header block: rows 2 to 5 of the file. */
  datatype HeaderColumn = HeaderColumn(section: Cell, line: Cell, description: Cell, period: Cell)

  /** The section cell after forward filling: the nearest present section cell
      at or to the left of column `i`. */
  function FilledSection(h: seq<HeaderColumn>, i: nat): Cell
    requires i < |h|
    decreases i
  {
    if h[i].section.Some? then h[i].section
    else if i == 0 then None
    else FilledSection(h, i - 1)
  }

  /** Forward filling yields the nearest present cell to the left, or nothing
      when every cell up to `i` is missing. */
  lemma {:induction false} FilledSectionIsNearest(h: seq<HeaderColumn>, i: nat)
    requires i < |h|
    ensures FilledSection(h, i).None? <==> forall j :: 0 <= j <= i ==> h[j].section.None?
    ensures FilledSection(h, i).Some? ==>
              exists j :: 0 <= j <= i && h[j].section == FilledSection(h, i) &&
                          forall k :: j < k <= i ==> h[k].section.None?
    decreases i
  {
    if h[i].section.None? && i > 0 {
      FilledSectionIsNearest(h, i - 1);
      if FilledSection(h, i).Some? {
        var j :| 0 <= j <= i - 1 && h[j].section == FilledSection(h, i - 1) &&
                 forall k :: j < k <= i - 1 ==> h[k].section.None?;
        assert forall k :: j < k <= i ==> h[k].section.None?;
      }
    }
  }

  /** The `_cy` / `_py` suffix chosen by the period cell's upper-cased text. */
  function PeriodSuffix(period: string): string
  {
    if Upper(period) == "CY" then "_cy"
    else if Upper(period) == "PY" then "_py"
    else ""
  }

  /** The non-empty parts among section, line number and description, in that order. */
  function PresentParts(section: string, line: string, description: string): (r: seq<string>)
    ensures |r| == (if section != "" then 1 else 0) + (if line != "" then 1 else 0) + (if description != "" then 1 else 0)
    ensures forall k :: 0 <= k < |r| ==> r[k] != ""
    ensures section != "" ==> r[0] == section
    ensures line != "" ==> r[if section != "" then 1 else 0] == line
    ensures description != "" ==> r[|r| - 1] == description
  {
    (if section != "" then [section] else [])
    + (if line != "" then [line] else [])
    + (if description != "" then [description] else [])
  }

  const PlaceholderPrefix := "column_"

  /** The base name: the present parts joined with `_`, or `column_<i>`. */
  function BaseName(section: string, line: string, description: string, i: nat): string
  {
    var parts := PresentParts(section, line, description);
    if parts != [] then Join("_", parts) else PlaceholderPrefix + NatToString(i)
  }

  /** The name of column `i` before sanitising: base name and period suffix. */
  function RawColumnName(h: seq<HeaderColumn>, i: nat): string
    requires i < |h|
  {
    var section := NonBlank(FilledSection(h, i));
    var line := LinePart(h[i].line);
    var description := NonBlank(h[i].description);
    var year := NonBlank(h[i].period);
    BaseName(section, line, description, i) + PeriodSuffix(year)
  }

  /** The name `process_four_row_semantic_header` gives to column `i`. */
  function ColumnName(h: seq<HeaderColumn>, i: nat): (r: string)
    requires i < |h|
    ensures CleanName(r)
  {
    SanitizeName(RawColumnName(h, i))
  }

  /** The list of names, one per header column. */
  function HeaderNames(h: seq<HeaderColumn>): (r: seq<string>)
    ensures |r| == |h|
  {
    seq(|h|, i requires 0 <= i < |h| => ColumnName(h, i))
  }

  /** `column_<n>` followed by a period suffix already has the sanitised shape. */
  lemma PlaceholderIsClean(n: nat, suffix: string)
    requires suffix == "" || suffix == "_cy" || suffix == "_py"
    ensures CleanName(PlaceholderPrefix + NatToString(n) + suffix)
  {
    var d := NatToString(n);
    var s := PlaceholderPrefix + d + suffix;
    assert forall k :: 0 <= k < |s| ==> NameChar(s[k]) by {
      forall k | 0 <= k < |s| ensures NameChar(s[k]) {
        if k < 7 {
          assert s[k] == PlaceholderPrefix[k];
        } else if k < 7 + |d| {
          assert s[k] == d[k - 7];
        } else {
          assert s[k] == suffix[k - 7 - |d|];
        }
      }
    }
    forall k | 0 <= k < |s| - 1 ensures !DoubleAt(s, k) {
      if k < 6 {
        assert s[k] == PlaceholderPrefix[k];
      } else if k < 7 + |d| - 1 {
        assert s[k + 1] == d[k + 1 - 7];
      } else {
        assert s[k] == d[|d| - 1] || s[k + 1] == suffix[k + 1 - 7 - |d|];
      }
    }
  }

  /** A column whose header cells give no section, line number or description
      is called `column_<i>`, followed by the period suffix. */
  lemma PlaceholderColumnName(h: seq<HeaderColumn>, i: nat)
    requires i < |h|
    requires NonBlank(FilledSection(h, i)) == "" && !IsPureNumeric(h[i].line)
    requires NonBlank(h[i].description) == ""
    ensures ColumnName(h, i) == PlaceholderPrefix + NatToString(i) + PeriodSuffix(NonBlank(h[i].period))
  {
    var suffix := PeriodSuffix(NonBlank(h[i].period));
    assert RawColumnName(h, i) == PlaceholderPrefix + NatToString(i) + suffix;
    PlaceholderIsClean(i, suffix);
    SanitizeNameKeepsClean(RawColumnName(h, i));
  }

  /** When every part is present the name is built from all three in order. */
  lemma FullColumnName(h: seq<HeaderColumn>, i: nat)
    requires i < |h|
    requires NonBlank(FilledSection(h, i)) != "" && IsPureNumeric(h[i].line)
    requires NonBlank(h[i].description) != ""
    ensures RawColumnName(h, i) ==
              FilledSection(h, i).value + "_" + (Strip(h[i].line.value) + "_" + h[i].description.value)
              + PeriodSuffix(NonBlank(h[i].period))
    ensures ColumnName(h, i) ==
              SanitizeName(FilledSection(h, i).value + "_" + (Strip(h[i].line.value) + "_" + h[i].description.value)
                           + PeriodSuffix(NonBlank(h[i].period)))
  {
    assert NonBlank(FilledSection(h, i)) == FilledSection(h, i).value;
    assert LinePart(h[i].line) == Strip(h[i].line.value);
    assert NonBlank(h[i].description) == h[i].description.value;
    BaseNameOfThree(FilledSection(h, i).value, Strip(h[i].line.value), h[i].description.value, i);
  }

  lemma BaseNameOfThree(section: string, line: string, description: string, i: nat)
    requires section != "" && line != "" && description != ""
    ensures BaseName(section, line, description, i) == section + "_" + (line + "_" + description)
  {
    var parts := [section, line, description];
    assert PresentParts(section, line, description) == parts;
    assert Join("_", [description]) == description;
    assert parts[1..] == [line, description];
    assert Join("_", [line, description]) == line + "_" + description;
  }

  // ---------------------------------------------------------------------
  // process_four_row_semantic_header
  // ---------------------------------------------------------------------

  /** Why reading the file failed (pandas raises; the pipeline catches it and
      returns without touching the database). */
  datatype ReadError =
    | EmptyData            // no rows, or the first row has no fields
    | TooManyFields          // a row longer than the first one
    | HeaderTooShort       // fewer than five rows before the data

  /** The frame pandas builds from rows with `header=None`: the first row fixes
      the width, shorter rows are padded with missing cells, longer rows are an
      error. */
  function ReadFrame(rows: seq<seq<Cell>>): (r: Result<seq<seq<Cell>>, ReadError>)
    ensures r.Ok? <==> rows != [] && rows[0] != [] && forall k :: 0 <= k < |rows| ==> |rows[k]| <= |rows[0]|
    ensures r.Ok? ==> |r.value| == |rows| && forall k :: 0 <= k < |rows| ==> |r.value[k]| == |rows[0]|
    ensures r.Ok? ==> forall k, j :: 0 <= k < |rows| && 0 <= j < |rows[k]| ==> r.value[k][j] == rows[k][j]
    ensures r.Ok? ==> forall k, j :: 0 <= k < |rows| && |rows[k]| <= j < |rows[0]| ==> r.value[k][j] == None
  {
    if rows == [] || rows[0] == [] then Err(EmptyData)
    else if exists k :: 0 <= k < |rows| && |rows[k]| > |rows[0]| then
      Err(TooManyFields)
    else
      var width := |rows[0]|;
      Ok(seq(|rows|, k requires 0 <= k < |rows| => rows[k] + seq(width - |rows[k]|, _ => None)))
  }

  /** Cell `i` of a row, missing past its end (the padding of a short row). */
  function CellAt(row: seq<Cell>, i: nat): Cell
  {
    if i < |row| then row[i] else None
  }

  /** Rows 2 to 5 of the first five rows, read as one frame, column by column. */
  function ReadHeader(rows: seq<seq<Cell>>): (r: Result<seq<HeaderColumn>, ReadError>)
    ensures r.Ok? <==> |rows| >= 5 && ReadFrame(rows[..5]).Ok?
    ensures r.Ok? ==> |r.value| == |rows[0]| && r.value != []
    ensures r.Ok? ==> forall i :: 0 <= i < |r.value| ==>
              r.value[i] == HeaderColumn(CellAt(rows[1], i), CellAt(rows[2], i), CellAt(rows[3], i), CellAt(rows[4], i))
  {
    var top := if |rows| < 5 then rows else rows[..5];
    match ReadFrame(top)
    case Err(e) => Err(e)
    case Ok(f) =>
      if |f| < 5 then Err(HeaderTooShort)
      else Ok(seq(|f[0]|, i requires 0 <= i < |f[0]| =>
                HeaderColumn(f[1][i], f[2][i], f[3][i], f[4][i])))
  }

  /** The forward fill of the section row (`ffill(axis=1)`). */
  method ForwardFill(h: seq<HeaderColumn>) returns (filled: seq<Cell>)
    ensures |filled| == |h|
    ensures forall k {:trigger filled[k]} :: 0 <= k < |h| ==> filled[k] == FilledSection(h, k)
  {
    filled := [];
    var last: Cell := None;
    for i := 0 to |h|
      invariant |filled| == i
      invariant forall k {:trigger filled[k]} :: 0 <= k < i ==> filled[k] == FilledSection(h, k)
      invariant i > 0 ==> last == FilledSection(h, i - 1)
      invariant i == 0 ==> last == None
    {
      if h[i].section.Some? {
        last := h[i].section;
      }
      filled := filled + [last];
    }
  }

  /** Extending the first `i` elements by element `i` gives the first `i + 1`. */
  lemma PrefixStep<X>(xs: seq<X>, i: nat, x: X)
    requires i < |xs| && x == xs[i]
    ensures xs[..i] + [x] == xs[..i + 1]
  {
  }

  /** The line-number row after the source's loop: one line part per column. */
  function LineRow(h: seq<HeaderColumn>): (r: seq<string>)
    ensures |r| == |h|
  {
    seq(|h|, k requires 0 <= k < |h| => LinePart(h[k].line))
  }

  /** The line-number row: the stripped text of each pure number, else empty. */
  method LineNumbers(h: seq<HeaderColumn>) returns (lines: seq<string>)
    ensures lines == LineRow(h)
  {
    lines := [];
    for i := 0 to |h|
      invariant lines == LineRow(h)[..i]
    {
      var part := "";
      if IsPureNumeric(h[i].line) {
        part := Strip(h[i].line.value);
      }
      assert part == LinePart(h[i].line) == LineRow(h)[i];
      PrefixStep(LineRow(h), i, part);
      lines := lines + [part];
    }
    assert LineRow(h)[..|h|] == LineRow(h);
  }

  /** The name of one column from its (already filled) header texts. */
  method NameOfColumn(section: string, line: string, description: string, year: string, i: nat)
    returns (name: string)
    ensures name == SanitizeName(BaseName(section, line, description, i) + PeriodSuffix(year))
  {
    var parts: seq<string> := [];
    if section != "" {
      parts := parts + [section];
    }
    if line != "" {
      parts := parts + [line];
    }
    if description != "" {
      parts := parts + [description];
    }
    var baseName := if parts != [] then Join("_", parts) else PlaceholderPrefix + NatToString(i);
    var suffix := "";
    if Upper(year) == "CY" {
      suffix := "_cy";
    } else if Upper(year) == "PY" {
      suffix := "_py";
    }
    assert parts == PresentParts(section, line, description);
    assert suffix == PeriodSuffix(year);
    name := SanitizeName(baseName + suffix);
  }

  /** Builds the names from the header block as the source does: forward fill
      of the section row, the line-number row, then one name per column. */
  method BuildColumnNames(h: seq<HeaderColumn>) returns (names: seq<string>)
    ensures names == HeaderNames(h)
  {
    var filled := ForwardFill(h);
    var lines := LineNumbers(h);
    names := [];
    for i := 0 to |h|
      invariant |names| == i
      invariant names == HeaderNames(h)[..i]
    {
      var name := NameOfColumn(NonBlank(filled[i]), lines[i], NonBlank(h[i].description),
                               NonBlank(h[i].period), i);
      assert lines[i] == LinePart(h[i].line);
      assert name == ColumnName(h, i) == HeaderNames(h)[i];
      PrefixStep(HeaderNames(h), i, name);
      names := names + [name];
    }
    assert HeaderNames(h)[..|h|] == HeaderNames(h);
  }

  const ExtraPrefix := "extra_column_"

  /** The names fitted to `width` data columns: cut from the end when too
      many, padded with `extra_column_<i>` when too few. */
  function FitToWidth(names: seq<string>, width: nat): (r: seq<string>)
    ensures |r| == width
    ensures forall i :: 0 <= i < width && i < |names| ==> r[i] == names[i]
    ensures forall i :: |names| <= i < width ==> r[i] == ExtraPrefix + NatToString(i)
  {
    seq(width, i requires 0 <= i < width =>
      if i < |names| then names[i] else ExtraPrefix + NatToString(i))
  }

  /** The count adjustment of the source: slicing or an appending loop. */
  method AdjustColumnCount(names: seq<string>, width: nat) returns (r: seq<string>)
    ensures r == FitToWidth(names, width)
  {
    r := names;
    if |r| != width {
      if |r| > width {
        r := r[..width];
      } else {
        for i := |names| to width
          invariant |r| == i
          invariant forall k :: 0 <= k < |names| ==> r[k] == names[k]
          invariant forall k :: |names| <= k < i ==> r[k] == ExtraPrefix + NatToString(k)
        {
          r := r + [ExtraPrefix + NatToString(i)];
        }
      }
    }
  }

  /** A table: column names and rows of cells. */
  datatype Table = Table(columns: seq<string>, rows: seq<seq<Cell>>) {
    /** Every row has one cell per column. */
    predicate Valid() {
      forall k :: 0 <= k < |rows| ==> |rows[k]| == |columns|
    }
  }

  /** `process_four_row_semantic_header`: names from the header block, data
      from row 6 on, names fitted to the data width. */
  method ProcessFourRowSemanticHeader(file: seq<seq<Cell>>) returns (r: Result<Table, ReadError>)
    ensures r.Ok? ==> |file| > 5 && r.value.Valid() && |r.value.rows| == |file| - 5
    ensures r.Ok? ==> ReadHeader(file).Ok? && ReadFrame(file[5..]).Ok?
    ensures r.Ok? ==>
              r.value == Table(FitToWidth(HeaderNames(ReadHeader(file).value), |file[5]|),
                               ReadFrame(file[5..]).value)
    ensures r.Err? ==> ReadHeader(file).Err? || ReadFrame(file[5..]).Err?
  {
    var header := ReadHeader(file);
    if header.Err? {
      return Err(header.error);
    }
    var names := BuildColumnNames(header.value);
    var data := ReadFrame(file[5..]);
    if data.Err? {
      return Err(data.error);
    }
    names := AdjustColumnCount(names, |file[5]|);
    r := Ok(Table(names, data.value));
  }

  // ---------------------------------------------------------------------
  // run_data_pipeline, steps 2 and 3
  // ---------------------------------------------------------------------

  /** Number of kept positions in a mask. */
  function Kept(keep: seq<bool>): nat
  {
    if keep == [] then 0 else (if keep[0] then 1 else 0) + Kept(keep[1..])
  }

  /** The elements at the kept positions, in their order. */
  function Select<T>(xs: seq<T>, keep: seq<bool>): (r: seq<T>)
    requires |keep| == |xs|
    ensures |r| == Kept(keep)
  {
    if xs == [] then [] else (if keep[0] then [xs[0]] else []) + Select(xs[1..], keep[1..])
  }

  /** `x` is kept exactly when it sits at some kept position. */
  lemma {:induction false} SelectMember<T>(xs: seq<T>, keep: seq<bool>, x: T)
    requires |keep| == |xs|
    ensures x in Select(xs, keep) <==> exists i :: 0 <= i < |xs| && keep[i] && xs[i] == x
  {
    if xs != [] {
      SelectMember(xs[1..], keep[1..], x);
      assert Select(xs, keep) == (if keep[0] then [xs[0]] else []) + Select(xs[1..], keep[1..]);
      if x in Select(xs[1..], keep[1..]) {
        var i :| 0 <= i < |xs[1..]| && keep[1..][i] && xs[1..][i] == x;
        assert keep[i + 1] && xs[i + 1] == x;
      }
      if exists i :: 0 <= i < |xs| && keep[i] && xs[i] == x {
        var i :| 0 <= i < |xs| && keep[i] && xs[i] == x;
        if i > 0 {
          assert keep[1..][i - 1] && xs[1..][i - 1] == x;
        }
      }
    }
  }

  /** Extending both sequences by one element extends the selection by that
      element when it is kept. */
  lemma {:induction false} SelectAppend<T>(xs: seq<T>, keep: seq<bool>, x: T, b: bool)
    requires |keep| == |xs|
    ensures Select(xs + [x], keep + [b]) == Select(xs, keep) + (if b then [x] else [])
  {
    if xs == [] {
      assert (xs + [x])[1..] == [] && (keep + [b])[1..] == [];
    } else {
      assert (xs + [x])[1..] == xs[1..] + [x];
      assert (keep + [b])[1..] == keep[1..] + [b];
      SelectAppend(xs[1..], keep[1..], x, b);
    }
  }

  /** Selecting from the first `k + 1` positions. */
  lemma SelectPrefix<T>(xs: seq<T>, keep: seq<bool>, k: nat)
    requires |keep| == |xs| && k < |xs|
    ensures Select(xs[..k + 1], keep[..k + 1]) == Select(xs[..k], keep[..k]) + (if keep[k] then [xs[k]] else [])
  {
    assert xs[..k + 1] == xs[..k] + [xs[k]];
    assert keep[..k + 1] == keep[..k] + [keep[k]];
    SelectAppend(xs[..k], keep[..k], xs[k], keep[k]);
  }

  /** The position in the original sequence of the `j`-th kept element:
      it is kept, and exactly `j` kept positions come before it. */
  function Origin(keep: seq<bool>, j: nat): (i: nat)
    requires j < Kept(keep)
    ensures i < |keep| && keep[i]
    ensures Kept(keep[..i]) == j
  {
    if keep[0] && j == 0 then 0
    else
      var i := 1 + Origin(keep[1..], if keep[0] then j - 1 else j);
      assert keep[..i][1..] == keep[1..][..i - 1];
      i
  }

  /** The `j`-th selected element is the element at `Origin(keep, j)`. */
  lemma {:induction false} SelectAt<T>(xs: seq<T>, keep: seq<bool>, j: nat)
    requires |keep| == |xs| && j < Kept(keep)
    ensures Select(xs, keep)[j] == xs[Origin(keep, j)]
  {
    assert Select(xs, keep) == (if keep[0] then [xs[0]] else []) + Select(xs[1..], keep[1..]);
    if keep[0] && j == 0 {
    } else if keep[0] {
      SelectAt(xs[1..], keep[1..], j - 1);
    } else {
      SelectAt(xs[1..], keep[1..], j);
    }
  }

  /** Selection keeps the original order. */
  lemma {:induction false} OriginIncreasing(keep: seq<bool>, j1: nat, j2: nat)
    requires j1 < j2 < Kept(keep)
    ensures Origin(keep, j1) < Origin(keep, j2)
  {
    if keep[0] {
      if j1 > 0 {
        OriginIncreasing(keep[1..], j1 - 1, j2 - 1);
      }
    } else {
      OriginIncreasing(keep[1..], j1, j2);
    }
  }

  /** Every kept position is the origin of some selected element. */
  lemma {:induction false} OriginOnto(keep: seq<bool>, i: nat)
    requires i < |keep| && keep[i]
    ensures Kept(keep[..i]) < Kept(keep) && Origin(keep, Kept(keep[..i])) == i
  {
    if i > 0 {
      assert keep[..i][1..] == keep[1..][..i - 1];
      OriginOnto(keep[1..], i - 1);
    }
  }

  /** The keep-mask of a drop: a column survives when its name does not
      satisfy `drop`. */
  function Survivors(columns: seq<string>, drop: string -> bool): (keep: seq<bool>)
    ensures |keep| == |columns|
    ensures forall i :: 0 <= i < |columns| ==> (keep[i] <==> !drop(columns[i]))
  {
    seq(|columns|, i requires 0 <= i < |columns| => !drop(columns[i]))
  }

  /** `df.drop(columns=...)` for every column whose name satisfies `drop`:
      pandas drops by label, so every column carrying such a name goes. The
      surviving columns keep their order, and each row keeps the cells of
      the surviving columns. */
  function DropColumnsWhere(t: Table, drop: string -> bool): (r: Table)
    requires t.Valid()
    ensures r.Valid() && |r.rows| == |t.rows|
    ensures forall c :: c in r.columns <==> c in t.columns && !drop(c)
    ensures |r.columns| == Kept(Survivors(t.columns, drop))
    ensures forall j :: 0 <= j < |r.columns| ==> r.columns[j] == t.columns[Origin(Survivors(t.columns, drop), j)]
    ensures forall k, j :: 0 <= k < |r.rows| && 0 <= j < |r.columns| ==>
              r.rows[k][j] == t.rows[k][Origin(Survivors(t.columns, drop), j)]
  {
    var keep := Survivors(t.columns, drop);
    assert forall c :: c in Select(t.columns, keep) <==> c in t.columns && !drop(c) by {
      forall c ensures c in Select(t.columns, keep) <==> c in t.columns && !drop(c) {
        SelectMember(t.columns, keep, c);
      }
    }
    var r := Table(Select(t.columns, keep), seq(|t.rows|, k requires 0 <= k < |t.rows| => Select(t.rows[k], keep)));
    assert forall j :: 0 <= j < |r.columns| ==> r.columns[j] == t.columns[Origin(keep, j)] by {
      forall j | 0 <= j < |r.columns| {
        SelectAt(t.columns, keep, j);
      }
    }
    assert forall k, j :: 0 <= k < |r.rows| && 0 <= j < |r.columns| ==> r.rows[k][j] == t.rows[k][Origin(keep, j)] by {
      forall k, j | 0 <= k < |r.rows| && 0 <= j < |r.columns| {
        SelectAt(t.rows[k], keep, j);
      }
    }
    r
  }

  /** Name of the `n`-th repeat of `name` (`n == 0` is the first occurrence). */
  function Renamed(name: string, n: nat): string
  {
    if n == 0 then name else name + "_" + NatToString(n)
  }

  /** The renaming of the de-duplication step: each name keeps its first
      occurrence and its `n`-th repeat is suffixed with `_n`; the count is
      taken over the original names only. */
  function Deduplicated(names: seq<string>): (r: seq<string>)
    ensures |r| == |names|
  {
    seq(|names|, i requires 0 <= i < |names| => Renamed(names[i], multiset(names[..i])[names[i]]))
  }

  /** The loop of the source, with its `seen` dictionary of repeat counts. */
  method DeduplicateNames(names: seq<string>) returns (r: seq<string>)
    ensures r == Deduplicated(names)
  {
    var seen: map<string, nat> := map[];
    r := [];
    for i := 0 to |names|
      invariant r == Deduplicated(names)[..i]
      invariant forall x :: x in seen <==> x in multiset(names[..i])
      invariant forall x :: x in seen ==> seen[x] + 1 == multiset(names[..i])[x]
    {
      var col := names[i];
      CountStep(names, i);
      var renamed: string;
      if col in seen {
        seen := seen[col := seen[col] + 1];
        renamed := col + "_" + NatToString(seen[col]);
      } else {
        seen := seen[col := 0];
        renamed := col;
      }
      assert renamed == Renamed(col, multiset(names[..i])[col]);
      PrefixStep(Deduplicated(names), i, renamed);
      r := r + [renamed];
    }
    assert Deduplicated(names)[..|names|] == Deduplicated(names);
  }

  /** One more name counts once more for itself and for no other. */
  lemma CountStep(names: seq<string>, i: nat)
    requires i < |names|
    ensures multiset(names[..i + 1]) == multiset(names[..i]) + multiset{names[i]}
  {
    assert names[..i + 1] == names[..i] + [names[i]];
  }


  /** The first occurrence of every name is left unchanged, and the `n`-th
      repeat of a name is that name followed by `_n`. */
  lemma DeduplicatedRenamesRepeats(names: seq<string>, i: nat)
    requires i < |names|
    ensures names[i] !in names[..i] ==> Deduplicated(names)[i] == names[i]
    ensures names[i] in names[..i] ==>
              Deduplicated(names)[i] == names[i] + "_" + NatToString(multiset(names[..i])[names[i]])
  {
  }

  /** `s` ends with an underscore followed by decimal digits. */
  predicate HasNumericSuffix(s: string) {
    exists k :: 0 <= k < |s| - 1 && s[k] == '_' && IsDigits(s[k + 1..])
  }

  /** Two names that end in `_` and digits are equal only if both halves are. */
  lemma SuffixSplit(a: string, d1: string, b: string, d2: string)
    requires IsDigits(d1) && IsDigits(d2)
    ensures a + "_" + d1 == b + "_" + d2 <==> a == b && d1 == d2
  {
    var s1 := a + "_" + d1;
    var s2 := b + "_" + d2;
    if s1 == s2 {
      assert forall k :: |a| < k < |s1| ==> s1[k] != '_' by {
        forall k | |a| < k < |s1| ensures s1[k] != '_' {
          assert s1[k] == d1[k - |a| - 1];
        }
      }
      assert forall k :: |b| < k < |s2| ==> s2[k] != '_' by {
        forall k | |b| < k < |s2| ensures s2[k] != '_' {
          assert s2[k] == d2[k - |b| - 1];
        }
      }
      assert s1[|a|] == '_' && s2[|b|] == '_';
      assert |a| == |b|;
      assert a == s1[..|a|] == s2[..|b|] == b;
      assert d1 == s1[|a| + 1..] == s2[|b| + 1..] == d2;
    }
  }

  lemma RepeatCountGrows(names: seq<string>, i: nat, j: nat)
    requires i < j < |names| && names[i] == names[j]
    ensures multiset(names[..j])[names[j]] >= multiset(names[..i])[names[i]] + 1
  {
    assert names[..j] == names[..i] + names[i..j];
    assert names[i] in names[i..j];
  }

  /** The renamed names are pairwise distinct provided no original name
      already ends in `_` and digits (a generated `a_1` can otherwise equal a
      literal `a_1` column). */
  lemma DeduplicatedDistinct(names: seq<string>)
    requires forall i :: 0 <= i < |names| ==> !HasNumericSuffix(names[i])
    ensures forall i, j :: 0 <= i < j < |names| ==> Deduplicated(names)[i] != Deduplicated(names)[j]
  {
    var r := Deduplicated(names);
    forall i, j | 0 <= i < j < |names| ensures r[i] != r[j] {
      var ci := multiset(names[..i])[names[i]];
      var cj := multiset(names[..j])[names[j]];
      if names[i] == names[j] {
        RepeatCountGrows(names, i, j);
        if ci == 0 {
          assert r[j] == names[j] + "_" + NatToString(cj);
          assert !HasNumericSuffix(names[i]);
          assert r[j][|names[j]|] == '_' && r[j][|names[j]| + 1..] == NatToString(cj);
          assert |r[j]| != |r[i]|;
        } else {
          SuffixSplit(names[i], NatToString(ci), names[j], NatToString(cj));
          NatToStringInjectiveBoth(ci, cj);
        }
      } else {
        if ci == 0 && cj == 0 {
        } else if ci == 0 {
          var s := names[j] + "_" + NatToString(cj);
          assert s[|names[j]|] == '_' && s[|names[j]| + 1..] == NatToString(cj);
          assert HasNumericSuffix(s);
        } else if cj == 0 {
          var s := names[i] + "_" + NatToString(ci);
          assert s[|names[i]|] == '_' && s[|names[i]| + 1..] == NatToString(ci);
          assert HasNumericSuffix(s);
        } else {
          SuffixSplit(names[i], NatToString(ci), names[j], NatToString(cj));
        }
      }
    }
  }

  lemma NatToStringInjectiveBoth(m: nat, n: nat)
    ensures NatToString(m) == NatToString(n) <==> m == n
  {
    if NatToString(m) == NatToString(n) {
      NatToStringInjective(m, n);
    }
  }

  /** The source's renaming does not make names unique: `a`, `a`, `a_1`
      becomes `a`, `a_1`, `a_1`. */
  lemma DeduplicatedCanCollide()
    ensures Deduplicated(["a", "a", "a_1"]) == ["a", "a_1", "a_1"]
  {
    var names := ["a", "a", "a_1"];
    var r := Deduplicated(names);
    assert names[..0] == [] && names[..1] == ["a"] && names[..2] == ["a", "a"];
    assert multiset(names[..1])["a"] == 1;
    assert "a_1" != "a";
    assert multiset(names[..2])["a_1"] == 0;
    assert NatToString(1) == "1";
    assert r[0] == "a" && r[1] == "a_1" && r[2] == "a_1";
  }
  /** A repeated empty name becomes `_1`. */
  lemma DeduplicatedBlankRepeat()
    ensures Deduplicated(["", ""]) == ["", "_1"]
  {
    var names := ["", ""];
    assert names[..0] == [] && names[..1] == [""];
    assert multiset(names[..1])[""] == 1;
    assert NatToString(1) == "1";
    assert Renamed("", 1) == "" + "_" + "1" == "_1";
  }


  /** What the pipeline did with the source file. */
  datatype Outcome =
    | SourceMissing           // the file does not exist: return before any database access
    | ReadFailed(e: ReadError) // reading the header or the data raised
    | Loaded(table: Table)     // the cleaned table was written
    | WriteFailed(table: Table) // writing the cleaned table raised after the old table was dropped

  const TableName := "nonprofits"

  /** SQLite can create the table: it has at least one column, and no two
      column names are equal when compared ignoring ASCII case, as SQLite
      compares identifiers. */
  predicate Writable(t: Table) {
    && t.columns != []
    && forall i, j :: 0 <= i < j < |t.columns| ==> Lower(t.columns[i]) != Lower(t.columns[j])
  }

  /** A table whose names collide after renaming cannot be written:
      `a`, `a`, `a_1` is renamed to `a`, `a_1`, `a_1`. */
  lemma CollidingNamesNotWritable(rows: seq<seq<Cell>>)
    ensures !Writable(Table(Deduplicated(["a", "a", "a_1"]), rows))
  {
    DeduplicatedCanCollide();
    var t := Table(Deduplicated(["a", "a", "a_1"]), rows);
    assert t.columns[1] == t.columns[2];
  }


  /** Steps 2 and 3 of `run_data_pipeline` as one function of the table read. */
  function CleanTable(t: Table): (r: Table)
    requires t.Valid()
    ensures r.Valid() && |r.rows| == |t.rows|
    ensures forall c :: c in r.columns ==> Strip(c) != ""
  {
    var t1 := if |t.columns| > 0 then DropColumnsWhere(t, c => c == t.columns[0]) else t;
    var t2 := Table(Deduplicated(t1.columns), t1.rows);
    if exists c :: c in t2.columns && Strip(c) == "" then DropColumnsWhere(t2, c => Strip(c) == "") else t2
  }

  /** Steps 2 and 3 of `run_data_pipeline`, as the source performs them. */
  method CleanColumns(t: Table) returns (df: Table)
    requires t.Valid()
    ensures df == CleanTable(t)
  {
    df := t;

    // Step 2: drop the first column, by its label.
    if |df.columns| > 0 {
      var first := df.columns[0];
      df := DropColumnsWhere(df, c => c == first);
    }

    // Step 3: rename repeated names, then drop blank-named columns.
    var renamed := DeduplicateNames(df.columns);
    df := Table(renamed, df.rows);
    if exists c :: c in df.columns && Strip(c) == "" {
      df := DropColumnsWhere(df, c => Strip(c) == "");
    }
  }

  /** `run_data_pipeline`. The database is the map from table names to
      tables. Writing replaces the `nonprofits` table: the old table is
      dropped first, so when creating the new one fails the database is left
      without it. */
  method RunDataPipeline(source: Option<seq<seq<Cell>>>, db: map<string, Table>)
    returns (outcome: Outcome, db': map<string, Table>)
    ensures outcome.SourceMissing? <==> source.None?
    ensures outcome.SourceMissing? || outcome.ReadFailed? ==> db' == db
    ensures outcome.Loaded? ==> Writable(outcome.table) && db' == db[TableName := outcome.table]
    ensures outcome.WriteFailed? ==> !Writable(outcome.table) && db' == db - {TableName}
    ensures outcome.Loaded? || outcome.WriteFailed? ==>
              |source.value| > 5 && outcome.table.Valid() && |outcome.table.rows| == |source.value| - 5
    ensures outcome.Loaded? || outcome.WriteFailed? ==> forall c :: c in outcome.table.columns ==> Strip(c) != ""
    ensures outcome.Loaded? || outcome.WriteFailed? ==>
              ReadHeader(source.value).Ok? && ReadFrame(source.value[5..]).Ok? &&
              outcome.table == CleanTable(Table(FitToWidth(HeaderNames(ReadHeader(source.value).value), |source.value[5]|),
                                                ReadFrame(source.value[5..]).value))
    ensures outcome.ReadFailed? <==>
              source.Some? && (ReadHeader(source.value).Err? || ReadFrame(source.value[5..]).Err?)
  {
    if source.None? {
      return SourceMissing, db;
    }
    var read := ProcessFourRowSemanticHeader(source.value);
    if read.Err? {
      return ReadFailed(read.error), db;
    }
    var df := CleanColumns(read.value);

    // Step 4: replace the table.
    if Writable(df) {
      outcome := Loaded(df);
      db' := db[TableName := df];
    } else {
      outcome := WriteFailed(df);
      db' := db - {TableName};
    }
  }
}
