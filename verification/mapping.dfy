/**
 The mapping builder (leads_uploader/src/config.py, `create_mapping_from_csv`
 and `add_field_type_to_mapping`): a fold over the CSV columns that starts from
 a preset schema and gives every column a storage type looked up from its dtype,
 except `date_sent`, which keeps the preset `date` type.
 */
module Mapping {
  import opened Common
  import opened Frames

  /** The storage types the builder writes; `NoType` is Python's `None` for an unlisted dtype. */
  datatype FieldType = DateType | TextType | LongType | FloatType | KeywordType | NoType

  /** A raw `keyword` sub-field, whose values longer than `ignoreAbove` are not indexed. */
  datatype SubFields = NoSubFields | KeywordRaw(ignoreAbove: int)

  datatype Property = Property(fieldType: FieldType, fields: SubFields)

  /** The `{'properties': {...}}` object sent as the index mapping. */
  datatype IndexMapping = IndexMapping(properties: map<string, Property>)

  const IgnoreAbove: int := 256
  const DateSent: string := "date_sent"
  const ChatId: string := "chat_id"

  const DateProperty: Property := Property(DateType, NoSubFields)
  const TextWithRaw: Property := Property(TextType, KeywordRaw(IgnoreAbove))

  /** `m` holds entry `p` under `k`. */
  predicate Maps(m: IndexMapping, k: string, p: Property)
  {
    k in m.properties && m.properties[k] == p
  }

  /** The schema the fold starts from. */
  function PresetMapping(): IndexMapping
  {
    IndexMapping(map[DateSent := DateProperty, Status := TextWithRaw, ChatId := TextWithRaw])
  }

  /** The dtype-to-type lookup. */
  function FieldTypeOf(d: Dtype): (t: FieldType)
    ensures t != DateType && t != KeywordType
    ensures t == NoType <==> d.OtherDtype?
  {
    match d
    case Int64 => LongType
    case Object => TextType
    case Float64 => FloatType
    case OtherDtype(_) => NoType
  }

  /** The entry a column other than `date_sent` receives: its type plus a raw keyword sub-field. */
  function InferredProperty(d: Dtype): Property
  {
    Property(FieldTypeOf(d), KeywordRaw(IgnoreAbove))
  }

  /** `add_field_type_to_mapping`: one step of the fold. */
  function AddFieldType(m: IndexMapping, c: Column): (r: IndexMapping)
    ensures c.name == DateSent ==> r == m
    ensures c.name != DateSent ==>
      && r.properties.Keys == m.properties.Keys + {c.name}
      && r.properties[c.name] == InferredProperty(c.dtype)
    ensures forall k | k in m.properties && k != c.name :: r.properties[k] == m.properties[k]
  {
    if c.name == DateSent then m
    else IndexMapping(m.properties[c.name := InferredProperty(c.dtype)])
  }

  /** Names of the columns that inference assigns a type to. */
  function InferredNames(cols: seq<Column>): set<string>
  {
    set i | 0 <= i < |cols| && cols[i].name != DateSent :: cols[i].name
  }

  /** No later column has the same name as column `i`. */
  predicate IsLastNamed(cols: seq<Column>, i: int)
    requires 0 <= i < |cols|
  {
    forall j | i < j < |cols| :: cols[j].name != cols[i].name
  }

  /**
   The `for column in df` loop: `AddFieldType` applied to every column in order
   (written on the prefix, so the last column is the last step).
   */
  function FoldColumns(m: IndexMapping, cols: seq<Column>): IndexMapping
    decreases |cols|
  {
    if |cols| == 0 then m
    else AddFieldType(FoldColumns(m, cols[..|cols| - 1]), cols[|cols| - 1])
  }

  /** The fold adds exactly the inferred column names to the preset keys. */
  lemma {:induction false} FoldKeys(m: IndexMapping, cols: seq<Column>)
    ensures FoldColumns(m, cols).properties.Keys == m.properties.Keys + InferredNames(cols)
    decreases |cols|
  {
    if |cols| > 0 {
      var init := cols[..|cols| - 1];
      var last := cols[|cols| - 1];
      FoldKeys(m, init);
      assert InferredNames(cols) == InferredNames(init) + (if last.name == DateSent then {} else {last.name}) by {
        assert forall i | 0 <= i < |init| :: init[i] == cols[i];
      }
    }
  }

  /** Whatever the column order, inference never touches the `date_sent` entry. */
  lemma {:induction false} FoldKeepsDateSent(m: IndexMapping, cols: seq<Column>)
    requires DateSent in m.properties
    ensures Maps(FoldColumns(m, cols), DateSent, m.properties[DateSent])
    decreases |cols|
  {
    if |cols| > 0 {
      FoldKeepsDateSent(m, cols[..|cols| - 1]);
      FoldKeys(m, cols[..|cols| - 1]);
    }
  }

  /** An entry no column is named after survives the fold. */
  lemma {:induction false} FoldKeepsUnnamed(m: IndexMapping, cols: seq<Column>, k: string)
    requires k in m.properties && !HasColumn(cols, k)
    ensures Maps(FoldColumns(m, cols), k, m.properties[k])
    decreases |cols|
  {
    if |cols| > 0 {
      var init := cols[..|cols| - 1];
      assert !HasColumn(init, k) by {
        assert forall i | 0 <= i < |init| :: init[i] == cols[i];
      }
      assert cols[|cols| - 1].name != k;
      FoldKeepsUnnamed(m, init, k);
      FoldKeys(m, init);
    }
  }

  /** The last column of a given name (other than `date_sent`) decides that name's entry. */
  lemma {:induction false} FoldTypesColumn(m: IndexMapping, cols: seq<Column>, i: nat)
    requires i < |cols| && cols[i].name != DateSent && IsLastNamed(cols, i)
    ensures Maps(FoldColumns(m, cols), cols[i].name, InferredProperty(cols[i].dtype))
    decreases |cols|
  {
    var init := cols[..|cols| - 1];
    if i < |cols| - 1 {
      assert init[i] == cols[i];
      assert IsLastNamed(init, i);
      FoldTypesColumn(m, init, i);
      FoldKeys(m, init);
      assert cols[|cols| - 1].name != cols[i].name;
    }
  }

  /** `cnpj` after `format_cnpj`: its values are strings, so pandas reports `object`. */
  function CnpjAsText(cols: seq<Column>): (r: seq<Column>)
    ensures |r| == |cols|
    ensures forall i | 0 <= i < |cols| :: r[i].name == cols[i].name
  {
    seq(|cols|, i requires 0 <= i < |cols| =>
      if cols[i].name == CnpjColumn then Column(CnpjColumn, Object) else cols[i])
  }

  /**
   `create_mapping_from_csv` on an already read CSV: reading the `cnpj` column
   raises `KeyError` when it is missing; otherwise the preset schema is folded
   over the columns, `cnpj` retyped as text.
   */
  function CreateMapping(columns: seq<Column>): (r: Result<IndexMapping, Raised>)
    ensures r.Ok? <==> HasColumn(columns, CnpjColumn)
    ensures r.Err? ==> r.error == KeyError(CnpjColumn)
  {
    if !HasColumn(columns, CnpjColumn) then Err(KeyError(CnpjColumn))
    else Ok(FoldColumns(PresetMapping(), CnpjAsText(columns)))
  }

  /**
   The entries of the built mapping: one per column plus the preset ones,
   `date_sent` a date whatever the column order, and the preset
   `status`/`chat_id` entries kept when no column replaces them.
   */
  lemma CreateMappingKeys(columns: seq<Column>)
    requires HasColumn(columns, CnpjColumn)
    ensures var m := CreateMapping(columns).value;
      && m.properties.Keys == {DateSent, Status, ChatId} + InferredNames(columns)
      && Maps(m, DateSent, DateProperty)
      && (!HasColumn(columns, Status) ==> Maps(m, Status, TextWithRaw))
      && (!HasColumn(columns, ChatId) ==> Maps(m, ChatId, TextWithRaw))
  {
    var cols := CnpjAsText(columns);
    var pre := PresetMapping();
    assert InferredNames(cols) == InferredNames(columns);
    FoldKeys(pre, cols);
    FoldKeepsDateSent(pre, cols);
    if !HasColumn(columns, Status) {
      assert !HasColumn(cols, Status);
      FoldKeepsUnnamed(pre, cols, Status);
    }
    if !HasColumn(columns, ChatId) {
      assert !HasColumn(cols, ChatId);
      FoldKeepsUnnamed(pre, cols, ChatId);
    }
  }

  /**
   The types of the built mapping: `cnpj` text, and every other column (but
   `date_sent`) typed from its dtype by the last column of its name.
   */
  lemma CreateMappingTypes(columns: seq<Column>)
    requires HasColumn(columns, CnpjColumn)
    ensures var m := CreateMapping(columns).value;
      && Maps(m, CnpjColumn, TextWithRaw)
      && forall i | 0 <= i < |columns| && columns[i].name != DateSent
                    && columns[i].name != CnpjColumn && IsLastNamed(columns, i) ::
           Maps(m, columns[i].name, InferredProperty(columns[i].dtype))
  {
    var cols := CnpjAsText(columns);
    var pre := PresetMapping();
    var m := FoldColumns(pre, cols);
    var k :| 0 <= k < |columns| && columns[k].name == CnpjColumn;
    var j := LastIndexNamed(cols, k);
    FoldTypesColumn(pre, cols, j);
    forall i | 0 <= i < |columns| && columns[i].name != DateSent
               && columns[i].name != CnpjColumn && IsLastNamed(columns, i)
      ensures Maps(m, columns[i].name, InferredProperty(columns[i].dtype))
    {
      assert IsLastNamed(cols, i);
      FoldTypesColumn(pre, cols, i);
    }
  }

  /** The last column carrying the same name as column `k`. */
  function LastIndexNamed(cols: seq<Column>, k: nat): (j: nat)
    requires k < |cols|
    ensures k <= j < |cols| && cols[j].name == cols[k].name && IsLastNamed(cols, j)
    decreases |cols| - k
  {
    if exists j | k < j < |cols| :: cols[j].name == cols[k].name then
      var j :| k < j < |cols| && cols[j].name == cols[k].name;
      LastIndexNamed(cols, j)
    else k
  }

  /**
   An integer `cnpj` column is mapped as text, not as long: it has been
   converted to strings before the types are read. A textual `date_sent`
   is still mapped as a date.
   */
  lemma IntegerCnpjIsText()
    ensures var r := CreateMapping([Column(CnpjColumn, Int64), Column(Status, Object), Column(DateSent, Object)]);
      && r.Ok?
      && Maps(r.value, CnpjColumn, TextWithRaw)
      && Maps(r.value, Status, TextWithRaw)
      && Maps(r.value, DateSent, DateProperty)
  {
    var cols := [Column(CnpjColumn, Int64), Column(Status, Object), Column(DateSent, Object)];
    assert HasColumn(cols, CnpjColumn) by { assert cols[0].name == CnpjColumn; }
    assert IsLastNamed(cols, 1);
    CreateMappingKeys(cols);
    CreateMappingTypes(cols);
  }
}
