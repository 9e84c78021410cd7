/** The fallback of backend/emergency_fix.py: when the semantic pipeline
    fails, the raw rows are read without a header, wide tables get fixed
    column names, and every row receives a fiscal year and month, guessed
    from the first column whose name looks fiscal. */
module EmergencyFix {
  import opened Wrappers
  import opened PyText

  /** A column label: pandas numbers the columns when no header is read,
      and the renaming and the added columns give text names. */
  datatype Label = Position(i: nat) | Name(s: string)

  /** A cell as pandas holds it: missing (NaN), text, or an integer. */
  datatype Cell = Missing | Text(s: string) | Whole(n: int)

  /** `str(value)` of a present cell. */
  function CellText(c: Cell): string
    requires !c.Missing?
  {
    match c
    case Text(s) => s
    case Whole(n) => IntToString(n)
  }

  /** The labels `read_csv(..., header=None)` gives `n` columns. */
  function Positions(n: nat): (r: seq<Label>)
    ensures |r| == n && forall k :: 0 <= k < n ==> r[k] == Position(k)
  {
    seq(n, k requires 0 <= k < n => Position(k))
  }

  const BaseNames: seq<string> := ["id", "campus", "address", "city", "st", "zip", "ein"]

  /** `col_lo` up to `col_{hi-1}`. */
  function Numbered(lo: nat, hi: nat): (r: seq<string>)
    requires lo <= hi
    ensures |r| == hi - lo
  {
    seq(hi - lo, k requires 0 <= k < hi - lo => "col_" + NatToString(lo + k))
  }

  /** The names a table of `n > 20` columns receives. */
  function ColumnNames(n: nat): (r: seq<string>)
    requires n >= |BaseNames|
  {
    BaseNames + Numbered(|BaseNames|, n)
  }

  /** The labels after the renaming step: fixed names for wide tables,
      untouched otherwise. */
  function Renamed(labels: seq<Label>): seq<Label>
  {
    if |labels| > 20 then
      var names := ColumnNames(|labels|)[..|labels|];
      seq(|labels|, k requires 0 <= k < |labels| => Name(names[k]))
    else labels
  }

  /** The name list is exactly as long as the table is wide, so the
      truncation drops nothing: the seven fixed names, then `col_k` at
      every later position `k`. */
  lemma RenamedNames(labels: seq<Label>)
    requires |labels| > 20
    ensures |Renamed(labels)| == |labels|
    ensures forall k :: 0 <= k < |BaseNames| ==> Renamed(labels)[k] == Name(BaseNames[k])
    ensures forall k :: |BaseNames| <= k < |labels| ==> Renamed(labels)[k] == Name("col_" + NatToString(k))
  {
    var n := |labels|;
    assert ColumnNames(n)[..n] == ColumnNames(n);
    forall k | |BaseNames| <= k < n ensures Renamed(labels)[k] == Name("col_" + NatToString(k)) {
      assert ColumnNames(n)[k] == Numbered(|BaseNames|, n)[k - |BaseNames|];
    }
  }

  /** `'fy' in col.lower() or 'fiscal' in col.lower()`. */
  predicate LooksFiscal(name: string) {
    Contains(Lower(name), "fy") || Contains(Lower(name), "fiscal")
  }

  /** Why the scan fails: `col.lower()` on a numbered column raises. */
  datatype ScanError = NumberedColumn(position: nat)

  /** The column the scan reads: the first one whose name looks fiscal,
      none if no name does; a numbered label met first raises. */
  function FirstFiscal(labels: seq<Label>): (r: Result<Option<nat>, ScanError>)
    ensures r.Ok? && r.value.Some? ==> r.value.value < |labels|
  {
    if labels == [] then Ok(None)
    else if labels[0].Position? then Err(NumberedColumn(labels[0].i))
    else if LooksFiscal(labels[0].s) then Ok(Some(0))
    else
      match FirstFiscal(labels[1..])
      case Ok(Some(c)) => Ok(Some(c + 1))
      case other => other
  }

  /** The year a value names: the first of 2022, 2023 and 2024 it contains. */
  function YearIn(s: string): (r: Option<int>)
    ensures r.Some? ==> 2022 <= r.value <= 2024
  {
    if Contains(s, "2022") then Some(2022)
    else if Contains(s, "2023") then Some(2023)
    else if Contains(s, "2024") then Some(2024)
    else None
  }

  /** The month a value names: its text before the first `/`, read as an
      integer between 1 and 12. */
  function MonthIn(s: string): (r: Option<int>)
    ensures r.Some? ==> 1 <= r.value <= 12
  {
    if '/' in s then
      var parts := Split(s, '/');
      if |parts| >= 2 then
        var m := ParseInt(parts[0]);
        if m.Some? && 1 <= m.value <= 12 then m else None
      else None
    else None
  }

  /** `df.at[idx, 'fiscal_year'] = year` when the value names a year. */
  function WithYear(row: seq<Cell>, s: string, yc: nat): (r: seq<Cell>)
    requires yc < |row|
    ensures |r| == |row|
  {
    var y := YearIn(s);
    if y.Some? then row[yc := Whole(y.value)] else row
  }

  /** `df.at[idx, 'fiscal_month'] = month` when the value names a month. */
  function WithMonth(row: seq<Cell>, s: string, mc: nat): (r: seq<Cell>)
    requires mc < |row|
    ensures |r| == |row|
  {
    var m := MonthIn(s);
    if m.Some? then row[mc := Whole(m.value)] else row
  }

  /** One row of the scan over column `c`: a present value may set the
      year cell, then the month cell; a missing one changes nothing. */
  function FixRow(row: seq<Cell>, c: nat, yc: nat, mc: nat): (r: seq<Cell>)
    requires c < |row| && yc < |row| && mc < |row|
    ensures |r| == |row|
  {
    if row[c].Missing? then row
    else
      var s := CellText(row[c]);
      WithMonth(WithYear(row, s, yc), s, mc)
  }



  /** Year and month cells that hold a value the heuristic can produce. */
  predicate InRange(row: seq<Cell>, yc: nat, mc: nat)
    requires yc < |row| && mc < |row|
  {
    row[yc].Whole? && 2022 <= row[yc].n <= 2024 &&
    row[mc].Whole? && 1 <= row[mc].n <= 12
  }

  /** Whatever the scanned value, the year stays within 2022..2024 and the
      month within 1..12, since the defaults already are. */
  lemma FixRowKeepsRanges(row: seq<Cell>, c: nat, yc: nat, mc: nat)
    requires c < |row| && yc < |row| && mc < |row| && yc != mc
    requires InRange(row, yc, mc)
    ensures InRange(FixRow(row, c, yc, mc), yc, mc)
    ensures forall k :: 0 <= k < |row| && k != yc && k != mc ==> FixRow(row, c, yc, mc)[k] == row[k]
  {
  }

  /** A text of the same length as `t` contains `t` only by being it. */
  lemma ContainsSameLength(s: string, t: string)
    requires |s| == |t|
    ensures Contains(s, t) <==> s == t
  {
    if Contains(s, t) {
      var i: nat :| i <= |s| && OccursAt(s, t, i);
      assert i == 0 && s[0..|t|] == s;
    } else {
      assert !OccursAt(s, t, 0);
      assert s[0..|t|] == s;
    }
  }

  /** The default year, scanned as a value, reproduces itself. */
  lemma DefaultYearIsStable()
    ensures YearIn(CellText(Whole(2023))) == Some(2023)
    ensures MonthIn(CellText(Whole(2023))) == None
  {
    assert CellText(Whole(2023)) == "2023";
    ContainsSameLength("2023", "2022");
    ContainsSameLength("2023", "2023");
  }

  /** In a date `m/u`, a four-character text without a slash that `m`
      does not contain occurs exactly when it is the year part `u`. */
  lemma {:induction false} YearTextOccurs(m: string, u: string, t: string)
    requires |u| == |t| == 4 && '/' !in t && !Contains(m, t)
    ensures Contains(m + "/" + u, t) <==> u == t
  {
    var s := m + "/" + u;
    assert s[|m| + 1..|m| + 5] == u;
    if Contains(s, t) {
      var i: nat :| i <= |s| && OccursAt(s, t, i);
      if i + 4 <= |m| {
        assert s[i..i + 4] == m[i..i + 4];
        assert OccursAt(m, t, i);
      } else {
        assert s[|m|] == '/';
        assert i == |m| + 1;
      }
    }
    if u == t {
      assert OccursAt(s, t, |m| + 1);
    }
  }

  /** A date `m/y` whose month part holds none of the year texts gives the
      year `y`, for each of 2022, 2023 and 2024; the sample file's `6/2023`
      and `12/2022` are such dates. */
  lemma YearOfDate(m: string, y: int)
    requires 2022 <= y <= 2024
    requires !Contains(m, "2022") && !Contains(m, "2023") && !Contains(m, "2024")
    ensures YearIn(m + "/" + CellText(Whole(y))) == Some(y)
  {
    var u := CellText(Whole(y));
    assert u == (if y == 2022 then "2022" else if y == 2023 then "2023" else "2024");
    YearTextOccurs(m, u, "2022");
    YearTextOccurs(m, u, "2023");
    YearTextOccurs(m, u, "2024");
  }

  /** A date written `m/...`, with `m` an integer from 1 to 12 and no
      slash of its own, is read as month `m`; the sample file's `6/2023` and
      `12/2022` are such dates. */
  lemma MonthOfDate(m: string, rest: string, v: int)
    requires '/' !in m && ParseInt(m) == Some(v) && 1 <= v <= 12
    ensures MonthIn(m + "/" + rest) == Some(v)
  {
    var s := m + "/" + rest;
    assert '/' in s by { assert s[|m|] == '/'; }
    assert |Split(s, '/')| >= 2 && Split(s, '/')[0] == m by {
      assert s[..|m|] == m && s[|m|] == '/';
      SplitHead(s, '/', |m|);
    }
  }



  /** The frame being repaired: its column labels and its rows, each row
      one cell per label. */
  class Frame {
    var labels: seq<Label>
    var rows: seq<seq<Cell>>

    ghost predicate Valid()
      reads this
    {
      forall k :: 0 <= k < |rows| ==> |rows[k]| == |labels|
    }

    constructor(labels: seq<Label>, rows: seq<seq<Cell>>)
      requires forall k :: 0 <= k < |rows| ==> |rows[k]| == |labels|
      ensures Valid() && this.labels == labels && this.rows == rows
    {
      this.labels := labels;
      this.rows := rows;
    }

    /** Lines 39-43: more than 20 columns get the fixed names, built by
        extending the seven with `col_7` onwards, then cut to the width. */
    method RenameColumns()
      requires Valid()
      modifies this
      ensures Valid() && labels == Renamed(old(labels)) && rows == old(rows)
    {
      var n := |labels|;
      if n > 20 {
        var names := ["id", "campus", "address", "city", "st", "zip", "ein"];
        var i := 7;
        while i < n
          invariant 7 <= i <= n
          invariant names == BaseNames + Numbered(7, i)
        {
          assert Numbered(7, i + 1) == Numbered(7, i) + ["col_" + NatToString(i)];
          names := names + ["col_" + NatToString(i)];
          i := i + 1;
        }
        names := names[..n];
        labels := seq(n, k requires 0 <= k < n => Name(names[k]));
      }
    }

    /** Lines 47-48: every row gets the default year 2023 and month 12. */
    method AddDefaults()
      requires Valid()
      modifies this
      ensures Valid()
      ensures labels == old(labels) + [Name("fiscal_year"), Name("fiscal_month")]
      ensures rows == seq(|old(rows)|, k requires 0 <= k < |old(rows)| => old(rows)[k] + [Whole(2023), Whole(12)])
    {
      labels := labels + [Name("fiscal_year"), Name("fiscal_month")];
      var old_rows := rows;
      rows := seq(|old_rows|, k requires 0 <= k < |old_rows| => old_rows[k] + [Whole(2023), Whole(12)]);
    }

    /** Lines 57-63: the first of 2022, 2023 and 2024 in the value
        becomes the row's year. */
    method SetYear(idx: nat, s: string, yc: nat)
      requires Valid() && idx < |rows| && yc < |labels|
      modifies this
      ensures Valid() && labels == old(labels)
      ensures rows == old(rows)[idx := WithYear(old(rows)[idx], s, yc)]
    {
      if Contains(s, "2022") {
        rows := rows[idx := rows[idx][yc := Whole(2022)]];
      } else if Contains(s, "2023") {
        rows := rows[idx := rows[idx][yc := Whole(2023)]];
      } else if Contains(s, "2024") {
        rows := rows[idx := rows[idx][yc := Whole(2024)]];
      } else {
        assert rows == rows[idx := rows[idx]];
      }
    }

    /** Lines 66-74: a value `m/...` with `m` an integer in 1..12 becomes
        the row's month. */
    method SetMonth(idx: nat, s: string, mc: nat)
      requires Valid() && idx < |rows| && mc < |labels|
      modifies this
      ensures Valid() && labels == old(labels)
      ensures rows == old(rows)[idx := WithMonth(old(rows)[idx], s, mc)]
    {
      ghost var found: Option<int> := None;
      if '/' in s {
        var parts := Split(s, '/');
        if |parts| >= 2 {
          var month := ParseInt(parts[0]);
          if month.Some? && 1 <= month.value <= 12 {
            rows := rows[idx := rows[idx][mc := Whole(month.value)]];
            found := month;
          }
        }
      }
      assert found == MonthIn(s);
      if found.None? {
        assert rows == rows[idx := rows[idx]];
      }
    }

    /** Lines 56-74, for the row at `idx`: a present value may set the
        row's year, then its month. */
    method ScanRow(idx: nat, c: nat, yc: nat, mc: nat)
      requires Valid() && idx < |rows| && c < |labels| && yc < |labels| && mc < |labels|
      modifies this
      ensures Valid() && labels == old(labels)
      ensures rows == old(rows)[idx := FixRow(old(rows)[idx], c, yc, mc)]
    {
      var value := rows[idx][c];
      if value != Missing {
        var s := CellText(value);
        SetYear(idx, s, yc);
        SetMonth(idx, s, mc);
      } else {
        assert rows == rows[idx := rows[idx]];
      }
    }

    /** Lines 55-74: each present value of column `c` may set the year and
        the month of its row, in place. */
    method ScanColumn(c: nat, yc: nat, mc: nat)
      requires Valid() && c < |labels| && yc < |labels| && mc < |labels|
      modifies this
      ensures Valid() && labels == old(labels) && |rows| == |old(rows)|
      ensures forall k :: 0 <= k < |rows| ==> rows[k] == FixRow(old(rows)[k], c, yc, mc)
    {
      var idx := 0;
      while idx < |rows|
        invariant 0 <= idx <= |rows| == |old(rows)|
        invariant labels == old(labels) && Valid()
        invariant forall k :: 0 <= k < idx ==> rows[k] == FixRow(old(rows)[k], c, yc, mc)
        invariant forall k :: idx <= k < |rows| ==> rows[k] == old(rows)[k]
      {
        ghost var prev := rows;
        ScanRow(idx, c, yc, mc);
        assert forall k :: 0 <= k < |rows| && k != idx ==> rows[k] == prev[k];
        idx := idx + 1;
      }
    }

    /** Lines 51-75: the first column whose name looks fiscal is scanned,
        then the loop breaks; `col.lower()` on a numbered label raises. */
    method ScanFiscalColumns() returns (r: Result<Option<nat>, ScanError>)
      requires Valid() && |labels| >= 2
      modifies this
      ensures Valid() && labels == old(labels) && |rows| == |old(rows)|
      ensures r == FirstFiscal(labels)
      ensures r.Ok? && r.value.Some? ==>
                forall k :: 0 <= k < |rows| ==>
                  rows[k] == FixRow(old(rows)[k], r.value.value, |labels| - 2, |labels| - 1)
      ensures !(r.Ok? && r.value.Some?) ==> rows == old(rows)
    {
      var i := 0;
      while i < |labels|
        invariant 0 <= i <= |labels|
        invariant FirstFiscal(labels) == ShiftFound(FirstFiscal(labels[i..]), i)
        invariant rows == old(rows) && labels == old(labels)
      {
        assert labels[i..][1..] == labels[i + 1..];
        var col := labels[i];
        if col.Position? {
          assert FirstFiscal(labels[i..]) == Err(NumberedColumn(col.i));
          return Err(NumberedColumn(col.i));
        }
        if LooksFiscal(col.s) {
          assert FirstFiscal(labels[i..]) == Ok(Some(0));
          ScanColumn(i, |labels| - 2, |labels| - 1);
          return Ok(Some(i));
        }
        i := i + 1;
      }
      assert labels[i..] == [];
      return Ok(None);
    }

    /** Lines 39-75 of `emergency_database_fix` on the rows `read_csv`
        returned: rename, add the defaults, scan. The exception the scan may
        raise is caught and reported as a failure. */
    method Repair() returns (ok: bool)
      requires Valid() && labels == Positions(|labels|) && |labels| >= 1
      modifies this
      ensures ok <==> |old(labels)| > 20
      ensures Valid() && |rows| == |old(rows)|
      ensures ok ==> labels == Renamed(old(labels)) + FiscalLabels
      ensures ok ==> forall k :: 0 <= k < |rows| ==> rows[k] == old(rows)[k] + [Whole(2023), Whole(12)]
    {
      ghost var n := |labels|;
      RenameColumns();
      AddDefaults();
      ghost var defaults := rows;
      var r := ScanFiscalColumns();
      if n > 20 {
        WideTableScansFiscalYear(old(labels));
        forall k | 0 <= k < |rows| ensures rows[k] == old(rows)[k] + [Whole(2023), Whole(12)] {
          assert |old(rows)[k]| == n;
          DefaultsSurviveScan(old(rows)[k]);
        }
      } else {
        NarrowTableFails(n);
      }
      ok := r.Ok?;
    }
  }

  /** A search result of a suffix starting at `i`, as a position of the
      whole. */
  function ShiftFound(r: Result<Option<nat>, ScanError>, i: nat): Result<Option<nat>, ScanError>
  {
    match r
    case Ok(Some(c)) => Ok(Some(c + i))
    case other => other
  }

  /** A name without an `f` in either case does not look fiscal. */
  lemma WithoutFNotFiscal(s: string)
    requires forall j :: 0 <= j < |s| ==> s[j] != 'f' && s[j] != 'F'
    ensures !LooksFiscal(s)
  {
    NotContainsWithoutFirstChar(Lower(s), "fy");
    NotContainsWithoutFirstChar(Lower(s), "fiscal");
  }

  /** A fixed name holds no `f`. */
  lemma BaseNameWithoutF(k: nat)
    requires k < |BaseNames|
    ensures forall j :: 0 <= j < |BaseNames[k]| ==> BaseNames[k][j] != 'f' && BaseNames[k][j] != 'F'
  {
  }

  /** A numbered name `col_k` holds no `f`. */
  lemma NumberedNameWithoutF(k: nat)
    ensures forall j :: 0 <= j < |"col_" + NatToString(k)| ==> ("col_" + NatToString(k))[j] != 'f' && ("col_" + NatToString(k))[j] != 'F'
  {
    var d := NatToString(k);
    assert forall j :: 0 <= j < |d| ==> IsDigit(d[j]);
  }

  /** No fixed name, and no `col_k`, looks fiscal: none contains an `f`. */
  lemma RenamedNamesAreNotFiscal(labels: seq<Label>, k: nat)
    requires |labels| > 20 && k < |labels|
    ensures Renamed(labels)[k].Name? && !LooksFiscal(Renamed(labels)[k].s)
  {
    RenamedNames(labels);
    if k >= |BaseNames| {
      NumberedNameWithoutF(k);
      WithoutFNotFiscal("col_" + NatToString(k));
    } else {
      BaseNameWithoutF(k);
      WithoutFNotFiscal(BaseNames[k]);
    }
  }

  /** Skipping a run of text labels that do not look fiscal shifts the
      found position by the run's length. */
  lemma {:induction false} FirstFiscalSkips(xs: seq<Label>, ys: seq<Label>)
    requires forall k :: 0 <= k < |xs| ==> xs[k].Name? && !LooksFiscal(xs[k].s)
    ensures FirstFiscal(xs + ys) == ShiftFound(FirstFiscal(ys), |xs|)
  {
    if xs == [] {
      assert xs + ys == ys;
      match FirstFiscal(ys)
      case Ok(Some(c)) =>
      case other =>
    } else {
      assert (xs + ys)[1..] == xs[1..] + ys;
      FirstFiscalSkips(xs[1..], ys);
    }
  }

  /** The labels the defaults step appends. */
  const FiscalLabels: seq<Label> := [Name("fiscal_year"), Name("fiscal_month")]

  lemma FiscalYearLooksFiscal()
    ensures LooksFiscal("fiscal_year")
  {
    assert Lower("fiscal_year")[0..6] == "fiscal";
    assert OccursAt(Lower("fiscal_year"), "fiscal", 0);
  }

  /** On a wide table the scan reads the added `fiscal_year` column itself. */
  lemma WideTableScansFiscalYear(labels: seq<Label>)
    requires |labels| > 20
    ensures FirstFiscal(Renamed(labels) + FiscalLabels) == Ok(Some(|labels|))
  {
    forall k | 0 <= k < |Renamed(labels)|
      ensures Renamed(labels)[k].Name? && !LooksFiscal(Renamed(labels)[k].s)
    {
      RenamedNamesAreNotFiscal(labels, k);
    }
    RenamedNames(labels);
    FirstFiscalSkips(Renamed(labels), FiscalLabels);
    FiscalYearLooksFiscal();
  }

  /** On a narrow table the columns keep their numbers and the first
      `col.lower()` raises. */
  lemma NarrowTableFails(n: nat)
    requires 1 <= n <= 20
    ensures FirstFiscal(Renamed(Positions(n)) + FiscalLabels) == Err(NumberedColumn(0))
  {
    assert (Positions(n) + FiscalLabels)[0] == Position(0);
  }

  /** Scanning the default year leaves a row as the defaults step made it. */
  lemma DefaultsSurviveScan(row: seq<Cell>)
    ensures FixRow(row + [Whole(2023), Whole(12)], |row|, |row|, |row| + 1) == row + [Whole(2023), Whole(12)]
  {
    DefaultYearIsStable();
    var r := row + [Whole(2023), Whole(12)];
    assert r[|row| := Whole(2023)] == r;
  }
}
