/**
 The document builder (leads_uploader/src/config.py, `create_doc` and the
 row loop of `upload_all_leads`): every CSV row, with its `cnpj` normalised
 and the uploading company's name attached, becomes one bulk-index action.
 */
module Documents {
  import opened Common
  import opened Frames
  import opened Cnpj

  /**
   A bulk-index action: the `_index` it goes to and its `_source`. It has no
   `_id`, so the search engine assigns one on write.
   */
  datatype Doc = Doc(index: string, source: map<string, Cell>)

  /** The status every lead starts with. */
  const Pending: Cell := Str("PENDING")

  /** The column `upload_all_leads` adds with the uploading company's name. */
  const CompanyName: string := "company_name"

  /** A row as `row.items()` yields it: (column name, value) pairs in column order. */
  type Row = seq<(string, Cell)>

  function FieldNames(row: Row): set<string>
  {
    set i | 0 <= i < |row| :: row[i].0
  }

  /** No later pair of `row` has the same name as pair `i`. */
  predicate IsLastField(row: Row, i: int)
    requires 0 <= i < |row|
  {
    forall j | i < j < |row| :: row[j].0 != row[i].0
  }

  /** Each pair's value is written under its name, pair by pair in order (recursion on the prefix). */
  function CopyFields(acc: map<string, Cell>, row: Row): map<string, Cell>
    decreases |row|
  {
    if |row| == 0 then acc
    else
      var last := row[|row| - 1];
      CopyFields(acc, row[..|row| - 1])[last.0 := last.1]
  }

  lemma {:induction false} CopyFieldsKeys(acc: map<string, Cell>, row: Row)
    ensures CopyFields(acc, row).Keys == acc.Keys + FieldNames(row)
    decreases |row|
  {
    if |row| > 0 {
      var init := row[..|row| - 1];
      CopyFieldsKeys(acc, init);
      assert FieldNames(row) == FieldNames(init) + {row[|row| - 1].0} by {
        assert forall i | 0 <= i < |init| :: init[i] == row[i];
      }
    }
  }

  /** The last pair with a given name decides that field's value. */
  lemma {:induction false} CopyFieldsLast(acc: map<string, Cell>, row: Row, i: nat)
    requires i < |row| && IsLastField(row, i)
    ensures row[i].0 in CopyFields(acc, row) && CopyFields(acc, row)[row[i].0] == row[i].1
    decreases |row|
  {
    var init := row[..|row| - 1];
    if i < |row| - 1 {
      assert init[i] == row[i];
      assert IsLastField(init, i);
      CopyFieldsLast(acc, init, i);
    }
  }

  /** A key no pair names keeps its initial value. */
  lemma {:induction false} CopyFieldsKeeps(acc: map<string, Cell>, row: Row, k: string)
    requires k in acc && k !in FieldNames(row)
    ensures k in CopyFields(acc, row) && CopyFields(acc, row)[k] == acc[k]
    decreases |row|
  {
    if |row| > 0 {
      var init := row[..|row| - 1];
      assert k !in FieldNames(init) by {
        assert forall i | 0 <= i < |init| :: init[i] == row[i];
      }
      assert row[|row| - 1].0 != k;
      CopyFieldsKeeps(acc, init, k);
    }
  }

  /**
   `create_doc`: `_source` starts as `{status: 'PENDING'}` and every field of
   the row is copied in. The guard `value != np.nan` holds of every value
   (NaN compares unequal to everything), so no field is skipped.
   */
  function CreateDoc(index: string, row: Row): Doc
  {
    Doc(index, CopyFields(map[Status := Pending], row))
  }

  /**
   What a document holds: exactly `status` and the row's fields; each field's
   (last) value; and `PENDING` as status unless the row has its own `status`.
   */
  lemma CreateDocContents(index: string, row: Row)
    ensures var d := CreateDoc(index, row);
      && d.index == index
      && d.source.Keys == {Status} + FieldNames(row)
      && (Status !in FieldNames(row) ==> Status in d.source && d.source[Status] == Pending)
      && forall i | 0 <= i < |row| && IsLastField(row, i) ::
           row[i].0 in d.source && d.source[row[i].0] == row[i].1
  {
    CopyFieldsKeys(map[Status := Pending], row);
    if Status !in FieldNames(row) {
      CopyFieldsKeeps(map[Status := Pending], row, Status);
    }
    forall i | 0 <= i < |row| && IsLastField(row, i)
      ensures row[i].0 in CreateDoc(index, row).source
      ensures CreateDoc(index, row).source[row[i].0] == row[i].1
    {
      CopyFieldsLast(map[Status := Pending], row, i);
    }
  }

  /** The values of column `k`, top to bottom. */
  function ColumnValues(rows: seq<seq<Cell>>, k: nat): (c: seq<Cell>)
    requires forall r | r in rows :: k < |r|
    ensures |c| == |rows|
  {
    seq(|rows|, i requires 0 <= i < |rows| => rows[i][k])
  }

  /**
   One row once the `cnpj` column is normalised and the company's name is
   assigned: the `cnpj` cell replaced by its normalised text, and a
   `company_name` cell overwritten in place or appended as a last column.
   */
  function LeadRow(columns: seq<Column>, cells: seq<Cell>, cnpj: string, company: string): Row
    requires |cells| == |columns|
  {
    var items := seq(|cells|, i requires 0 <= i < |cells| =>
      var name := columns[i].name;
      (name, if name == CnpjColumn then Str(cnpj) else if name == CompanyName then Str(company) else cells[i]));
    if HasColumn(columns, CompanyName) then items else items + [(CompanyName, Str(company))]
  }

  /**
   The lead list `upload_all_leads` hands to the uploader: one document per
   row, in row order. Reading the `cnpj` column raises `KeyError` when it is missing.
   */
  function UploadAllLeads(index: string, f: Frame, company: string): (r: Result<seq<Doc>, Raised>)
    requires WellFormed(f)
    ensures r.Ok? <==> HasColumn(f.columns, CnpjColumn)
    ensures r.Err? ==> r.error == KeyError(CnpjColumn)
    ensures r.Ok? ==> |r.value| == |f.rows|
    ensures r.Ok? ==> forall i | 0 <= i < |r.value| :: r.value[i].index == index
  {
    if !HasColumn(f.columns, CnpjColumn) then Err(KeyError(CnpjColumn))
    else
      var k := ColumnIndex(f.columns, CnpjColumn);
      var cnpjs := FormatCnpj(ColumnValues(f.rows, k));
      Ok(seq(|f.rows|, i requires 0 <= i < |f.rows| =>
        CreateDoc(index, LeadRow(f.columns, f.rows[i], cnpjs[i], company))))
  }

  /** Every pair of a lead row is the last of its name: column names are distinct. */
  lemma LeadRowFields(columns: seq<Column>, cells: seq<Cell>, cnpj: string, company: string)
    requires |cells| == |columns| && DistinctNames(columns)
    ensures var row := LeadRow(columns, cells, cnpj, company);
      && |row| >= |columns|
      && (forall i | 0 <= i < |row| :: IsLastField(row, i))
      && (forall i | 0 <= i < |columns| :: row[i].0 == columns[i].name)
      && (forall i | 0 <= i < |columns| && columns[i].name != CnpjColumn && columns[i].name != CompanyName ::
            row[i].1 == cells[i])
      && (forall i | 0 <= i < |columns| && columns[i].name == CnpjColumn :: row[i].1 == Str(cnpj))
      && exists i | 0 <= i < |row| :: row[i] == (CompanyName, Str(company))
  {
    var row := LeadRow(columns, cells, cnpj, company);
    if HasColumn(columns, CompanyName) {
      var j :| 0 <= j < |columns| && columns[j].name == CompanyName;
      assert row[j] == (CompanyName, Str(company));
    } else {
      assert row[|columns|] == (CompanyName, Str(company));
    }
  }

  /** The row document `i` of the upload is built from. */
  function LeadRowAt(f: Frame, company: string, i: nat): Row
    requires WellFormed(f) && HasColumn(f.columns, CnpjColumn) && i < |f.rows|
  {
    var k := ColumnIndex(f.columns, CnpjColumn);
    var cnpjs := FormatCnpj(ColumnValues(f.rows, k));
    assert f.rows[i] in f.rows;
    LeadRow(f.columns, f.rows[i], cnpjs[i], company)
  }

  lemma UploadedLeadIsRowDoc(index: string, f: Frame, company: string, i: nat)
    requires WellFormed(f) && HasColumn(f.columns, CnpjColumn) && i < |f.rows|
    ensures UploadAllLeads(index, f, company).value[i] == CreateDoc(index, LeadRowAt(f, company, i))
  {
  }

  /** Every uploaded lead carries the uploading company's name. */
  lemma UploadedLeadCompany(index: string, f: Frame, company: string, i: nat)
    requires WellFormed(f) && HasColumn(f.columns, CnpjColumn) && i < |f.rows|
    ensures var d := UploadAllLeads(index, f, company).value[i];
      CompanyName in d.source && d.source[CompanyName] == Str(company)
  {
    var k := ColumnIndex(f.columns, CnpjColumn);
    var cnpjs := FormatCnpj(ColumnValues(f.rows, k));
    assert f.rows[i] in f.rows;
    var row := LeadRowAt(f, company, i);
    UploadedLeadIsRowDoc(index, f, company, i);
    LeadRowFields(f.columns, f.rows[i], cnpjs[i], company);
    var c :| 0 <= c < |row| && row[c] == (CompanyName, Str(company));
    CopyFieldsLast(map[Status := Pending], row, c);
  }

  /**
   Every uploaded lead carries its CNPJ as the zero-padded text of the CSV
   value, at least 14 characters long.
   */
  lemma UploadedLeadCnpj(index: string, f: Frame, company: string, i: nat)
    requires WellFormed(f) && HasColumn(f.columns, CnpjColumn) && i < |f.rows|
    ensures var d := UploadAllLeads(index, f, company).value[i];
      && CnpjColumn in d.source && d.source[CnpjColumn].Str?
      && |d.source[CnpjColumn].s| >= CnpjWidth
      && PaddedTo(Render(f.rows[i][ColumnIndex(f.columns, CnpjColumn)]), d.source[CnpjColumn].s, CnpjWidth)
  {
    var k := ColumnIndex(f.columns, CnpjColumn);
    var cnpjs := FormatCnpj(ColumnValues(f.rows, k));
    assert f.rows[i] in f.rows;
    var row := LeadRowAt(f, company, i);
    UploadedLeadIsRowDoc(index, f, company, i);
    LeadRowFields(f.columns, f.rows[i], cnpjs[i], company);
    assert row[k] == (CnpjColumn, Str(cnpjs[i]));
    CopyFieldsLast(map[Status := Pending], row, k);
    assert ColumnValues(f.rows, k)[i] == f.rows[i][k];
  }

  /** Every CSV value outside `cnpj` and `company_name` reaches the uploaded lead unchanged. */
  lemma UploadedLeadOtherFields(index: string, f: Frame, company: string, i: nat)
    requires WellFormed(f) && HasColumn(f.columns, CnpjColumn) && i < |f.rows|
    ensures var d := UploadAllLeads(index, f, company).value[i];
      forall j | 0 <= j < |f.columns| && f.columns[j].name != CnpjColumn && f.columns[j].name != CompanyName ::
        f.columns[j].name in d.source && d.source[f.columns[j].name] == f.rows[i][j]
  {
    var k := ColumnIndex(f.columns, CnpjColumn);
    var cnpjs := FormatCnpj(ColumnValues(f.rows, k));
    assert f.rows[i] in f.rows;
    var row := LeadRowAt(f, company, i);
    UploadedLeadIsRowDoc(index, f, company, i);
    LeadRowFields(f.columns, f.rows[i], cnpjs[i], company);
    forall j | 0 <= j < |f.columns| && f.columns[j].name != CnpjColumn && f.columns[j].name != CompanyName
      ensures f.columns[j].name in CreateDoc(index, row).source
      ensures CreateDoc(index, row).source[f.columns[j].name] == f.rows[i][j]
    {
      CopyFieldsLast(map[Status := Pending], row, j);
    }
  }

  /** A lead from a CSV without a `status` column starts as `PENDING`. */
  lemma UploadedLeadPending(index: string, f: Frame, company: string, i: nat)
    requires WellFormed(f) && HasColumn(f.columns, CnpjColumn) && i < |f.rows|
    requires !HasColumn(f.columns, Status)
    ensures var d := UploadAllLeads(index, f, company).value[i];
      Status in d.source && d.source[Status] == Pending
  {
    var k := ColumnIndex(f.columns, CnpjColumn);
    var cnpjs := FormatCnpj(ColumnValues(f.rows, k));
    assert f.rows[i] in f.rows;
    var row := LeadRowAt(f, company, i);
    UploadedLeadIsRowDoc(index, f, company, i);
    LeadRowFields(f.columns, f.rows[i], cnpjs[i], company);
    assert Status !in FieldNames(row) by {
      forall j | 0 <= j < |row| ensures row[j].0 != Status {
        if j < |f.columns| {
          assert row[j].0 == f.columns[j].name;
        } else {
          assert row[j].0 == CompanyName;
        }
      }
    }
    CopyFieldsKeeps(map[Status := Pending], row, Status);
  }
}
