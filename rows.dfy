/** The spreadsheet side of draft generation: the value the sheets tool
    returns, how it is resolved to one list of rows (the `rows_raw` ->
    `rows_list` branch of `generate_drafts`), and `_normalize_row_keys`,
    which maps a row with unreliable column names to a fixed record. */
module Rows {
  import opened PyStrings

  /** One cell: a string, or null. */
  type Cell = Option<string>

  /** One spreadsheet row: a dict from column name to cell. */
  type Row = map<string, Cell>

  /** One element of a row list: a dict row, or any value that is not a dict. */
  datatype Item = RowItem(row: Row) | OtherItem

  /** The JSON-like value the sheets tool hands back as its final output.
      Dict entries are in insertion order (Python dicts keep it); a bool,
      number or string is only ever tested for truthiness here. */
  datatype Value =
    | Null
    | Scalar(truthy: bool)
    | List(items: seq<Item>)
    | Dict(entries: seq<(string, Value)>)

  predicate Truthful(v: Value) {
    match v
    case Null => false
    case Scalar(t) => t
    case List(items) => items != []
    case Dict(entries) => entries != []
  }

  /** Python's `key in d` on a dict value. */
  predicate HasKey(entries: seq<(string, Value)>, key: string) {
    exists k :: 0 <= k < |entries| && entries[k].0 == key
  }

  /** Python's `d[key]`: the entry stored under `key`. */
  function Lookup(entries: seq<(string, Value)>, key: string): (v: Value)
    requires HasKey(entries, key)
    ensures exists k :: 0 <= k < |entries| && entries[k] == (key, v)
  {
    if entries[0].0 == key then entries[0].1 else Lookup(entries[1..], key)
  }

  /** What a `for` loop over a sheet value yields that the draft loop can use.
      A list yields its items; a str or dict value yields strings, none of
      them a dict row. */
  function ItemsOf(v: Value): seq<Item> {
    if v.List? then v.items else []
  }

  /** `rows_raw = <final output> or {}` followed by the dict/list/other
      branch that picks `rows_list`. */
  function ResolveRows(output: Value): seq<Item> {
    var raw := if Truthful(output) then output else Dict([]);
    match raw
    case Dict(entries) =>
      if HasKey(entries, "Sheet1") then ItemsOf(Lookup(entries, "Sheet1"))
      else if HasKey(entries, "sheet1") then ItemsOf(Lookup(entries, "sheet1"))
      else if entries == [] then []
      else ItemsOf(entries[0].1)
    case List(items) => items
    case _ => []
  }

  /** A list is used as it is, the empty list included. */
  lemma ListUsedAsIs(items: seq<Item>)
    ensures ResolveRows(List(items)) == items
  {
  }

  /** A falsy output, and any truthy output that is neither a list nor a
      dict, gives zero rows. */
  lemma NoRowsFromOtherValues(output: Value)
    requires !Truthful(output) || output.Null? || output.Scalar?
    ensures ResolveRows(output) == []
  {
  }

  /** A sheet named exactly "Sheet1" wins over every other entry, wherever
      it stands in the dict. */
  lemma Sheet1Wins(before: seq<(string, Value)>, rows: seq<Item>, after: seq<(string, Value)>)
    requires !HasKey(before, "Sheet1")
    ensures ResolveRows(Dict(before + [("Sheet1", List(rows))] + after)) == rows
  {
    var e := before + [("Sheet1", List(rows))] + after;
    assert e[|before|].0 == "Sheet1";
    LookupFirst(before, "Sheet1", List(rows), after);
  }

  /** Without "Sheet1", a sheet named exactly "sheet1" wins over every other
      entry, the first one included. */
  lemma LowerSheet1Wins(before: seq<(string, Value)>, rows: seq<Item>, after: seq<(string, Value)>)
    requires !HasKey(before, "Sheet1") && !HasKey(after, "Sheet1")
    requires !HasKey(before, "sheet1")
    ensures ResolveRows(Dict(before + [("sheet1", List(rows))] + after)) == rows
  {
    var e := before + [("sheet1", List(rows))] + after;
    assert e[|before|].0 == "sheet1";
    assert !HasKey(e, "Sheet1") by {
      forall k | 0 <= k < |e| ensures e[k].0 != "Sheet1" {
        if k < |before| {
          assert e[k] == before[k];
        } else if k > |before| {
          assert e[k] == after[k - |before| - 1];
        }
      }
    }
    LookupFirst(before, "sheet1", List(rows), after);
  }

  /** Otherwise the first value decides: its items if it is a list, and
      zero rows if it is anything else. */
  lemma FirstValueOtherwise(entries: seq<(string, Value)>)
    requires entries != []
    requires !HasKey(entries, "Sheet1") && !HasKey(entries, "sheet1")
    ensures ResolveRows(Dict(entries)) == (if entries[0].1.List? then entries[0].1.items else [])
  {
  }

  /** Only the two exact spellings are recognised: a sheet called "SHEET1"
      standing second is not picked, the first value is. */
  lemma OtherSpellingsIgnored(first: seq<Item>, other: seq<Item>)
    ensures ResolveRows(Dict([("Data", List(first)), ("SHEET1", List(other))])) == first
  {
    var e := [("Data", List(first)), ("SHEET1", List(other))];
    assert !HasKey(e, "Sheet1") by {
      forall k | 0 <= k < |e| ensures e[k].0 != "Sheet1" {
        assert e[k].0 == "Data" || e[k].0 == "SHEET1";
        assert "SHEET1"[1] != "Sheet1"[1];
      }
    }
    assert !HasKey(e, "sheet1") by {
      forall k | 0 <= k < |e| ensures e[k].0 != "sheet1" {
        assert "SHEET1"[0] != "sheet1"[0];
      }
    }
  }

  lemma {:induction false} LookupFirst(before: seq<(string, Value)>, key: string, v: Value, after: seq<(string, Value)>)
    requires !HasKey(before, key)
    ensures HasKey(before + [(key, v)] + after, key)
    ensures Lookup(before + [(key, v)] + after, key) == v
  {
    var e := before + [(key, v)] + after;
    assert e[|before|] == (key, v);
    if before != [] {
      assert before[0].0 != key;
      assert e[1..] == before[1..] + [(key, v)] + after;
      assert !HasKey(before[1..], key) by {
        forall k | 0 <= k < |before[1..]| ensures before[1..][k].0 != key {
          assert before[1..][k] == before[k + 1];
        }
      }
      LookupFirst(before[1..], key, v, after);
    }
  }

  // ---------------------------------------------------------------------
  // Row normalisation

  /** Python's `row.get(key)`: the cell, or None when the column is absent. */
  function Get(row: Row, key: string): Cell {
    if key in row then row[key] else None
  }

  const CompanyKeys: seq<string> := ["Company", "company", "COMPANY", "company_name"]
  const HrEmailKeys: seq<string> := ["HR Email", "hr_email", "HR_Email", "Email"]
  const JobRoleKeys: seq<string> := ["Job Role", "job_role", "Role", "JobRole"]

  /** `row.get(k1) or row.get(k2) or ... or ""`: the first truthy cell
      among `keys`, in order, or "" when none is truthy (see FirstTruthySpec). */
  function FirstTruthy(row: Row, keys: seq<string>): string {
    if keys == [] then ""
    else if Truthy(Get(row, keys[0])) then Get(row, keys[0]).value
    else FirstTruthy(row, keys[1..])
  }

  /** The `or` chain gives "" exactly when no column is truthy, and
      otherwise the value of the first truthy column. */
  lemma {:induction false} FirstTruthySpec(row: Row, keys: seq<string>)
    ensures FirstTruthy(row, keys) == "" <==> forall i :: 0 <= i < |keys| ==> !Truthy(Get(row, keys[i]))
    ensures forall i :: 0 <= i < |keys| && Truthy(Get(row, keys[i])) && NoneTruthyBefore(row, keys, i) ==>
      FirstTruthy(row, keys) == Get(row, keys[i]).value
  {
    if keys != [] && !Truthy(Get(row, keys[0])) {
      FirstTruthySpec(row, keys[1..]);
      assert forall i :: 1 <= i < |keys| ==> keys[i] == keys[1..][i - 1];
    }
  }

  /** None of the first `i` columns of `keys` holds a truthy cell. */
  predicate NoneTruthyBefore(row: Row, keys: seq<string>, i: nat)
    requires i <= |keys|
  {
    forall j :: 0 <= j < i ==> !Truthy(Get(row, keys[j]))
  }

  /** `(first truthy value or "").strip()` for one field. */
  function ResolveField(row: Row, keys: seq<string>): string {
    Strip(FirstTruthy(row, keys))
  }

  /** `_normalize_row_keys`: a fresh dict holding company, hr_email and
      job_role, plus subject and body copied when the row has them (see
      NormalizeRowKeysShape). */
  function NormalizeRowKeys(row: Row): map<string, Cell> {
    Normalized(row, ResolveField(row, CompanyKeys), ResolveField(row, HrEmailKeys), ResolveField(row, JobRoleKeys))
  }

  /** The dict `_normalize_row_keys` builds from the three resolved fields. */
  function Normalized(row: Row, company: string, hrEmail: string, jobRole: string): map<string, Cell> {
    var fields := map["company" := Some(company), "hr_email" := Some(hrEmail), "job_role" := Some(jobRole)];
    var withSubject := if "subject" in row then fields["subject" := row["subject"]] else fields;
    if "body" in row then withSubject["body" := row["body"]] else withSubject
  }

  /** The normalised record always has company, hr_email and job_role, each
      the resolved field; it has subject and body exactly when the row does,
      copied as they are; no other key of the row survives. */
  lemma NormalizeRowKeysShape(row: Row)
    ensures var r := NormalizeRowKeys(row);
      && "company" in r && "hr_email" in r && "job_role" in r
      && ("subject" in r <==> "subject" in row) && ("body" in r <==> "body" in row)
      && (forall k :: k in r ==> k in {"company", "hr_email", "job_role", "subject", "body"})
      && r["company"] == Some(ResolveField(row, CompanyKeys))
      && r["hr_email"] == Some(ResolveField(row, HrEmailKeys))
      && r["job_role"] == Some(ResolveField(row, JobRoleKeys))
      && ("subject" in row ==> r["subject"] == row["subject"])
      && ("body" in row ==> r["body"] == row["body"])
  {
    NormalizedShape(row, ResolveField(row, CompanyKeys), ResolveField(row, HrEmailKeys), ResolveField(row, JobRoleKeys));
  }

  lemma NormalizedShape(row: Row, company: string, hrEmail: string, jobRole: string)
    ensures var r := Normalized(row, company, hrEmail, jobRole);
      && "company" in r && "hr_email" in r && "job_role" in r
      && ("subject" in r <==> "subject" in row) && ("body" in r <==> "body" in row)
      && (forall k :: k in r ==> k in {"company", "hr_email", "job_role", "subject", "body"})
      && r["company"] == Some(company) && r["hr_email"] == Some(hrEmail) && r["job_role"] == Some(jobRole)
      && ("subject" in row ==> r["subject"] == row["subject"])
      && ("body" in row ==> r["body"] == row["body"])
  {
  }

  /** The three fields `generate_drafts` reads back with `nr.get(key, "")`
      are the resolved fields. */
  lemma NormalizedFields(row: Row)
    ensures Field(NormalizeRowKeys(row), "company") == ResolveField(row, CompanyKeys)
    ensures Field(NormalizeRowKeys(row), "hr_email") == ResolveField(row, HrEmailKeys)
    ensures Field(NormalizeRowKeys(row), "job_role") == ResolveField(row, JobRoleKeys)
  {
    NormalizeRowKeysShape(row);
  }

  /** `nr.get(key, "")` on a normalised row, for one of its string fields. */
  function Field(nr: map<string, Cell>, key: string): string {
    if key in nr && nr[key].Some? then nr[key].value else ""
  }

  /** Each field is the stripped first truthy cell among its four columns,
      or "" when none of them is truthy. */
  lemma {:induction false} FieldResolution(row: Row, keys: seq<string>, i: nat)
    requires i < |keys| && Truthy(Get(row, keys[i]))
    requires forall j :: 0 <= j < i ==> !Truthy(Get(row, keys[j]))
    ensures ResolveField(row, keys) == Strip(row[keys[i]].value)
  {
    FirstTruthySpec(row, keys);
    assert NoneTruthyBefore(row, keys, i);
  }

  /** A row with none of the recognised columns normalises to empty strings. */
  lemma MissingColumnsGiveEmpty(row: Row)
    requires forall k :: k in CompanyKeys ==> k !in row
    requires forall k :: k in HrEmailKeys ==> k !in row
    requires forall k :: k in JobRoleKeys ==> k !in row
    ensures Field(NormalizeRowKeys(row), "company") == ""
    ensures Field(NormalizeRowKeys(row), "hr_email") == ""
    ensures Field(NormalizeRowKeys(row), "job_role") == ""
  {
    NormalizedFields(row);
    NoColumnGivesEmpty(row, CompanyKeys);
    NoColumnGivesEmpty(row, HrEmailKeys);
    NoColumnGivesEmpty(row, JobRoleKeys);
  }

  lemma NoColumnGivesEmpty(row: Row, keys: seq<string>)
    requires forall k :: k in keys ==> k !in row
    ensures ResolveField(row, keys) == ""
  {
    FirstTruthySpec(row, keys);
  }

  /** An earlier column that holds only whitespace is truthy, so it wins,
      and strips to "": a later "company" column is never consulted. */
  lemma BlankEarlierColumnWins(row: Row, blank: string)
    requires "Company" in row && row["Company"] == Some(blank)
    requires blank != "" && AllSpace(blank)
    ensures Field(NormalizeRowKeys(row), "company") == ""
  {
    NormalizedFields(row);
    FieldResolution(row, CompanyKeys, 0);
    StripAllSpace(blank);
  }

  /** Key-variant equivalence: a value placed under any one of a field's
      columns normalises the same as under any other, provided the row has
      none of that field's columns yet. */
  lemma KeyVariantsAgree(row: Row, keys: seq<string>, k1: string, k2: string, v: Cell)
    requires k1 in keys && k2 in keys
    requires forall k :: k in keys ==> k !in row
    ensures ResolveField(row[k1 := v], keys) == ResolveField(row[k2 := v], keys)
  {
    var i1 :| 0 <= i1 < |keys| && keys[i1] == k1;
    var i2 :| 0 <= i2 < |keys| && keys[i2] == k2;
    FirstTruthyOnlyOne(row, keys, i1, v);
    FirstTruthyOnlyOne(row, keys, i2, v);
  }

  /** The same, for the whole normalised record: a value under any one of
      a field's column names gives the same record. */
  lemma RecordVariantsAgree(row: Row, keys: seq<string>, k1: string, k2: string, v: Cell)
    requires keys == CompanyKeys || keys == HrEmailKeys || keys == JobRoleKeys
    requires k1 in keys && k2 in keys
    requires forall k :: k in keys ==> k !in row
    ensures NormalizeRowKeys(row[k1 := v]) == NormalizeRowKeys(row[k2 := v])
  {
    var r1, r2 := row[k1 := v], row[k2 := v];
    KeyVariantsAgree(row, keys, k1, k2, v);
    OtherFieldsUntouched(row, keys, k1, v);
    OtherFieldsUntouched(row, keys, k2, v);
    var c, h, j := ResolveField(r1, CompanyKeys), ResolveField(r1, HrEmailKeys), ResolveField(r1, JobRoleKeys);
    assert ResolveField(r2, CompanyKeys) == c;
    assert ResolveField(r2, HrEmailKeys) == h;
    assert ResolveField(r2, JobRoleKeys) == j;
    NormalizedIgnores(row, k1, v, c, h, j);
    NormalizedIgnores(row, k2, v, c, h, j);
  }

  /** The record's shape reads only the subject and body columns of the row. */
  lemma NormalizedIgnores(row: Row, k: string, v: Cell, company: string, hrEmail: string, jobRole: string)
    requires k != "subject" && k != "body"
    ensures Normalized(row[k := v], company, hrEmail, jobRole) == Normalized(row, company, hrEmail, jobRole)
  {
  }

  /** Setting one column of a field leaves the other two fields, and the
      subject and body, as they were. */
  lemma OtherFieldsUntouched(row: Row, keys: seq<string>, k: string, v: Cell)
    requires keys == CompanyKeys || keys == HrEmailKeys || keys == JobRoleKeys
    requires k in keys
    ensures k != "subject" && k != "body"
    ensures keys != CompanyKeys ==> ResolveField(row[k := v], CompanyKeys) == ResolveField(row, CompanyKeys)
    ensures keys != HrEmailKeys ==> ResolveField(row[k := v], HrEmailKeys) == ResolveField(row, HrEmailKeys)
    ensures keys != JobRoleKeys ==> ResolveField(row[k := v], JobRoleKeys) == ResolveField(row, JobRoleKeys)
  {
    if keys != CompanyKeys {
      assert k !in CompanyKeys;
      FirstTruthyIgnores(row, CompanyKeys, k, v);
    }
    if keys != HrEmailKeys {
      assert k !in HrEmailKeys;
      FirstTruthyIgnores(row, HrEmailKeys, k, v);
    }
    if keys != JobRoleKeys {
      assert k !in JobRoleKeys;
      FirstTruthyIgnores(row, JobRoleKeys, k, v);
    }
  }

  /** The `or` chain over `keys` does not look at any other column. */
  lemma {:induction false} FirstTruthyIgnores(row: Row, keys: seq<string>, k: string, v: Cell)
    requires k !in keys
    ensures FirstTruthy(row[k := v], keys) == FirstTruthy(row, keys)
  {
    if keys != [] {
      assert keys[0] != k;
      assert Get(row[k := v], keys[0]) == Get(row, keys[0]);
      FirstTruthyIgnores(row, keys[1..], k, v);
    }
  }

  /** When a single column among `keys` is set, the first truthy value is
      that column's value if truthy, and "" otherwise. */
  lemma FirstTruthyOnlyOne(row: Row, keys: seq<string>, i: nat, v: Cell)
    requires i < |keys|
    requires forall k :: k in keys ==> k !in row
    ensures FirstTruthy(row[keys[i] := v], keys) == (if Truthy(v) then v.value else "")
  {
    var r := row[keys[i] := v];
    FirstTruthySpec(r, keys);
    assert forall j :: 0 <= j < |keys| && keys[j] != keys[i] ==> Get(r, keys[j]) == None;
    if Truthy(v) {
      var i0 :| 0 <= i0 < |keys| && keys[i0] == keys[i] &&
        forall j :: 0 <= j < i0 ==> keys[j] != keys[i] by {
        FirstOccurrence(keys, keys[i], i);
      }
      assert Get(r, keys[i0]) == v;
      assert NoneTruthyBefore(r, keys, i0);
    }
  }

  lemma {:induction false} FirstOccurrence(keys: seq<string>, k: string, i: nat)
    requires i < |keys| && keys[i] == k
    ensures exists i0 :: 0 <= i0 < |keys| && keys[i0] == k && forall j :: 0 <= j < i0 ==> keys[j] != k
  {
    if keys[0] == k {
      assert 0 < |keys| && keys[0] == k;
    } else {
      FirstOccurrence(keys[1..], k, i - 1);
      var i1 :| 0 <= i1 < |keys[1..]| && keys[1..][i1] == k && forall j :: 0 <= j < i1 ==> keys[1..][j] != k;
      assert forall j :: 0 <= j < i1 + 1 ==> keys[j] != k by {
        forall j | 0 <= j < i1 + 1 ensures keys[j] != k {
          if j > 0 { assert keys[j] == keys[1..][j - 1]; }
        }
      }
    }
  }
}
