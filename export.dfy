/** The statement behind the export endpoints of backend/api/export.py:
    `get_export_data` turns a dictionary of filters into a WHERE clause and
    a parameter list and always ends with a LIMIT; the endpoints turn an
    empty result into an error. */
module Export {
  import opened Wrappers
  import opened PyText
  import opened Values
  import Filter

  /** A filter dictionary, its entries in insertion order. */
  type Filters = seq<(string, Value)>

  /** The conditions and parameters gathered from the filters so far. */
  datatype Built = Built(conditions: seq<string>, params: seq<Value>)

  /** The statement handed to sqlite and its parameters. */
  datatype ExportQuery = ExportQuery(sql: string, params: seq<Value>)

  /** `key IN (?,...)` with one placeholder per element. */
  function InCondition(key: string, n: nat): (r: string)
    ensures Placeholders(r) == Placeholders(key) + n
  {
    NoPlaceholders(" IN (");
    NoPlaceholders(")");
    PlaceholdersAppend3(key, " IN (", Filter.QMarks(n));
    PlaceholdersAppend(key + " IN (" + Filter.QMarks(n), ")");
    key + " IN (" + Filter.QMarks(n) + ")"
  }

  /** `key = ?`. */
  function EqCondition(key: string): (r: string)
    ensures Placeholders(r) == Placeholders(key) + 1
  {
    NoPlaceholders(" = ");
    OnePlaceholder();
    PlaceholdersAppend3(key, " = ", "?");
    key + " = " + "?"
  }

  /** One pass of the loop: a missing value adds nothing, a list or tuple
      one membership test and all its elements, anything else one equality
      and the value itself. */
  function AddEntry(b: Built, key: string, value: Value): Built
  {
    if value.Null? then b
    else if value.List? then Built(b.conditions + [InCondition(key, |value.items|)], b.params + value.items)
    else Built(b.conditions + [EqCondition(key)], b.params + [value])
  }

  /** The conditions and parameters of a run of entries, in order. */
  function Build(entries: Filters): Built
  {
    if entries == [] then Built([], [])
    else
      var (key, value) := entries[|entries| - 1];
      AddEntry(Build(entries[..|entries| - 1]), key, value)
  }

  /** `if filters:` lets neither a missing nor an empty dictionary in. */
  function Entries(filters: Option<Filters>): Filters
  {
    if filters.None? then [] else filters.value
  }

  function ExportHead(): (r: string)
    ensures '?' !in r
  {
    "SELECT * FROM nonprofits"
  }

  /** ` WHERE ` and the conditions joined by ` AND `, when there are any. */
  function WhereClause(conditions: seq<string>): string
  {
    if conditions == [] then "" else " WHERE " + Join(" AND ", conditions)
  }

  lemma DigitsCarryNoMark(s: string)
    requires IsDigits(s)
    ensures '?' !in s
  {
  }

  /** ` LIMIT n`, with the limit written in decimal. */
  function LimitClause(limit: int): (r: string)
    ensures '?' !in r
  {
    DigitsCarryNoMark(NatToString(if limit < 0 then -limit else limit));
    " LIMIT " + IntToString(limit)
  }

  /** The statement `get_export_data` runs. */
  function ExportSql(filters: Option<Filters>, limit: int): string
  {
    ExportHead() + WhereClause(Build(Entries(filters)).conditions) + LimitClause(limit)
  }

  /** `get_export_data` up to the query: the loop over the filters, then
      the statement grown by `+=`. */
  method GetExportData(filters: Option<Filters>, limit: int) returns (q: ExportQuery)
    ensures q == ExportQuery(ExportSql(filters, limit), Build(Entries(filters)).params)
  {
    var sql := "SELECT * FROM nonprofits";
    var params: seq<Value> := [];
    var conditions: seq<string> := [];
    if filters.Some? && filters.value != [] {
      var entries := filters.value;
      var i := 0;
      while i < |entries|
        invariant 0 <= i <= |entries|
        invariant Built(conditions, params) == Build(entries[..i])
      {
        var (key, value) := entries[i];
        assert entries[..i + 1][..i] == entries[..i];
        if value != Null {
          if value.List? {
            conditions := conditions + [InCondition(key, |value.items|)];
            params := params + value.items;
          } else {
            conditions := conditions + [EqCondition(key)];
            params := params + [value];
          }
        }
        i := i + 1;
      }
      assert entries[..i] == entries;
      if conditions != [] {
        sql := sql + (" WHERE " + Join(" AND ", conditions));
      }
    }
    assert Built(conditions, params) == Build(Entries(filters));
    WithoutWhere(sql, conditions);
    sql := sql + (" LIMIT " + IntToString(limit));
    q := ExportQuery(sql, params);
  }

  /** An empty WHERE clause leaves the statement as it is. */
  lemma WithoutWhere(sql: string, conditions: seq<string>)
    ensures conditions == [] ==> sql + WhereClause(conditions) == sql
  {
    if conditions == [] {
      assert sql + "" == sql;
    }
  }

  /** The placeholders the keys themselves carry, over the entries that
      reach the statement. */
  function KeyMarks(entries: Filters): nat
  {
    if entries == [] then 0
    else
      var (key, value) := entries[|entries| - 1];
      KeyMarks(entries[..|entries| - 1]) + (if value.Null? then 0 else Placeholders(key))
  }

  /** The placeholders of a list of conditions, added up. */
  function Marks(parts: seq<string>): nat
  {
    if parts == [] then 0 else Placeholders(parts[0]) + Marks(parts[1..])
  }

  lemma {:induction false} MarksAppend(parts: seq<string>, x: string)
    ensures Marks(parts + [x]) == Marks(parts) + Placeholders(x)
  {
    if parts == [] {
      assert [x][1..] == [];
    } else {
      assert (parts + [x])[1..] == parts[1..] + [x];
      MarksAppend(parts[1..], x);
    }
  }

  lemma {:induction false} JoinMarks(sep: string, parts: seq<string>)
    requires '?' !in sep
    ensures Placeholders(Join(sep, parts)) == Marks(parts)
  {
    if |parts| == 1 {
      assert parts[1..] == [];
    } else if |parts| > 1 {
      JoinMarks(sep, parts[1..]);
      NoPlaceholders(sep);
      PlaceholdersAppend3(parts[0], sep, Join(sep, parts[1..]));
    }
  }

  /** Every condition carries one placeholder per parameter it adds, beyond
      those of its key. */
  lemma {:induction false} BuildMarks(entries: Filters)
    ensures Marks(Build(entries).conditions) == KeyMarks(entries) + |Build(entries).params|
  {
    if entries != [] {
      var init := entries[..|entries| - 1];
      var (key, value) := entries[|entries| - 1];
      BuildMarks(init);
      if !value.Null? {
        var b := Build(init);
        if value.List? {
          MarksAppend(b.conditions, InCondition(key, |value.items|));
        } else {
          MarksAppend(b.conditions, EqCondition(key));
        }
      }
    }
  }

  /** The statement has one placeholder per parameter, besides any that
      the filter keys, which reach the SQL text unchecked, bring along. */
  lemma ExportPlaceholdersMatch(filters: Option<Filters>, limit: int)
    ensures Placeholders(ExportSql(filters, limit)) ==
            KeyMarks(Entries(filters)) + |Build(Entries(filters)).params|
  {
    var b := Build(Entries(filters));
    BuildMarks(Entries(filters));
    if b.conditions != [] {
      JoinMarks(" AND ", b.conditions);
      NoPlaceholders(" WHERE ");
      PlaceholdersAppend(" WHERE ", Join(" AND ", b.conditions));
    }
    NoPlaceholders(ExportHead());
    NoPlaceholders(LimitClause(limit));
    PlaceholdersAppend3(ExportHead(), WhereClause(b.conditions), LimitClause(limit));
  }

  /** With keys free of `?`, placeholders and parameters agree. */
  lemma {:induction false} PlainKeysMatch(entries: Filters)
    requires forall k :: 0 <= k < |entries| ==> '?' !in entries[k].0
    ensures KeyMarks(entries) == 0
  {
    if entries != [] {
      PlainKeysMatch(entries[..|entries| - 1]);
      NoPlaceholders(entries[|entries| - 1].0);
    }
  }

  /** The entries that reach the statement: those whose value is not None. */
  function Present(entries: Filters): (r: Filters)
    ensures forall k :: 0 <= k < |r| ==> !r[k].1.Null?
  {
    if entries == [] then []
    else
      var last := entries[|entries| - 1];
      Present(entries[..|entries| - 1]) + (if last.1.Null? then [] else [last])
  }

  /** A None value adds neither a condition nor a parameter. */
  lemma {:induction false} MissingValuesIgnored(entries: Filters)
    ensures Build(Present(entries)) == Build(entries)
  {
    if entries != [] {
      var init := entries[..|entries| - 1];
      var last := entries[|entries| - 1];
      MissingValuesIgnored(init);
      if !last.1.Null? {
        var p := Present(init) + [last];
        assert p[..|p| - 1] == Present(init);
      } else {
        assert Present(init) + [] == Present(init);
      }
    }
  }

  /** One condition per present entry: ` WHERE ` appears exactly when some
      value is not None. */
  lemma {:induction false} OneConditionPerPresentEntry(entries: Filters)
    ensures |Build(entries).conditions| == |Present(entries)|
    ensures Build(entries).conditions == [] <==> forall k :: 0 <= k < |entries| ==> entries[k].1.Null?
  {
    if entries != [] {
      var init := entries[..|entries| - 1];
      OneConditionPerPresentEntry(init);
      if entries[|entries| - 1].1.Null? {
        forall k | 0 <= k < |init| ensures entries[k].1 == init[k].1 { }
      }
    }
  }

  /** A list of `n` values becomes one `IN` test with `n` placeholders and
      those values, in order; a scalar becomes one equality with itself. */
  lemma SingleEntry(key: string, value: Value)
    requires !value.Null?
    ensures var b := Build([(key, value)]);
            |b.conditions| == 1 &&
            (value.List? ==> b.params == value.items &&
                             Placeholders(b.conditions[0]) == Placeholders(key) + |value.items|) &&
            (!value.List? ==> b.params == [value] && Placeholders(b.conditions[0]) == Placeholders(key) + 1)
  {
    assert [(key, value)][..0] == [];
  }

  /** Without any present filter the statement is the bare table scan with
      its limit, and nothing is bound. */
  lemma NoFiltersScanWithLimit(filters: Option<Filters>, limit: int)
    requires filters.Some? ==> forall k :: 0 <= k < |filters.value| ==> filters.value[k].1.Null?
    ensures ExportSql(filters, limit) == ExportHead() + LimitClause(limit)
    ensures Build(Entries(filters)).params == []
  {
    var b := Build(Entries(filters));
    OneConditionPerPresentEntry(Entries(filters));
    BuildMarks(Entries(filters));
    WithoutWhere(ExportHead(), b.conditions);
  }

  // The endpoints

  const NotFound := 404
  const ServerError := 500

  /** The body of an export endpoint's `try`: a failed fetch raises a 500,
      an empty result a 404, any other result is rendered. */
  function ExportBody<T>(fetched: Result<seq<T>, string>): Result<seq<T>, int>
  {
    if fetched.Err? then Err(ServerError)
    else if fetched.value == [] then Err(NotFound)
    else Ok(fetched.value)
  }

  /** The endpoint's `except Exception`, which catches the HTTPException
      too and raises a 500 in its place. */
  function ExportEndpoint<T>(fetched: Result<seq<T>, string>): (r: Result<seq<T>, int>)
    ensures r.Ok? <==> fetched.Ok? && fetched.value != []
    ensures r.Ok? ==> r.value == fetched.value
    ensures r.Err? ==> r.error == ServerError
  {
    match ExportBody(fetched)
    case Ok(data) => Ok(data)
    case Err(_) => Err(ServerError)
  }

  /** An empty result raises 404 inside the `try`, which the caller sees
      as a 500: the endpoints never answer 404. */
  lemma EmptyExportIsServerError<T>()
    ensures ExportBody(Result<seq<T>, string>.Ok([])) == Err(NotFound)
    ensures ExportEndpoint(Result<seq<T>, string>.Ok([])) == Err(ServerError)
  {
  }
}
