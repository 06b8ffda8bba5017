/**
 The tabular data the uploader reads with pandas, reduced to what the uploader
 looks at: column names with their inferred dtypes, and rows of scalar cells.
 Reading and type inference are not modelled; a frame is given as read, after
 `fillna('')` (so no cell is NaN).
 */
module Frames {

  /** The column every uploaded CSV must have: the company's CNPJ. */
  const CnpjColumn: string := "cnpj"

  /** The lead status column, pinned by the mapping and defaulted by the document builder. */
  const Status: string := "status"

  /** The pandas dtypes the mapping builder distinguishes, and everything else. */
  datatype Dtype = Int64 | Float64 | Object | OtherDtype(name: string)

  /**
   A scalar cell. A float cell carries the text Python's `str()` renders it as,
   because float formatting is not part of this model.
   */
  datatype Cell = Str(s: string) | Int(i: int) | Float(repr: string)

  datatype Column = Column(name: string, dtype: Dtype)

  datatype Frame = Frame(columns: seq<Column>, rows: seq<seq<Cell>>)

  /** Column names are distinct (pandas renames duplicate CSV headers on read). */
  predicate DistinctNames(columns: seq<Column>)
  {
    forall i, j | 0 <= i < j < |columns| :: columns[i].name != columns[j].name
  }

  /** Every row has one cell per column. */
  predicate WellFormed(f: Frame)
  {
    && DistinctNames(f.columns)
    && forall r | r in f.rows :: |r| == |f.columns|
  }

  predicate HasColumn(columns: seq<Column>, name: string)
  {
    exists i | 0 <= i < |columns| :: columns[i].name == name
  }

  /** Position of the first column called `name`, or |columns| when there is none. */
  function ColumnIndex(columns: seq<Column>, name: string): (k: nat)
    ensures k <= |columns|
    ensures k < |columns| <==> HasColumn(columns, name)
    ensures k < |columns| ==> columns[k].name == name
    ensures forall i | 0 <= i < k :: columns[i].name != name
  {
    if |columns| == 0 then 0
    else if columns[0].name == name then 0
    else 1 + ColumnIndex(columns[1..], name)
  }

  predicate IsDigit(c: char)
  {
    '0' <= c <= '9'
  }

  predicate AllDigits(s: string)
  {
    forall i | 0 <= i < |s| :: IsDigit(s[i])
  }

  /** The number a string of decimal digits denotes, most significant first. */
  function DecimalValue(s: string): nat
    requires AllDigits(s)
    decreases |s|
  {
    if |s| == 0 then 0 else DecimalValue(s[..|s| - 1]) * 10 + (s[|s| - 1] - '0') as nat
  }

  /**
   Decimal digits of a natural number, most significant first, as `str()`
   prints them: no leading zero except for zero itself.
   */
  function NatToDecimal(n: nat): (s: string)
    ensures |s| > 0 && AllDigits(s)
    ensures n < 10 <==> |s| == 1
    ensures n > 0 ==> s[0] != '0'
    decreases n
  {
    var d := ['0' + (n % 10) as char];
    if n < 10 then d else NatToDecimal(n / 10) + d
  }

  /** The printed digits denote the number printed. */
  lemma {:induction false} DecimalRoundTrip(n: nat)
    ensures DecimalValue(NatToDecimal(n)) == n
    decreases n
  {
    var s := NatToDecimal(n);
    if n >= 10 {
      DecimalRoundTrip(n / 10);
      assert s[..|s| - 1] == NatToDecimal(n / 10);
    }
  }

  /** Python's `str()` of a cell. */
  function Render(c: Cell): string
  {
    match c
    case Str(s) => s
    case Int(i) => if i < 0 then "-" + NatToDecimal(-i) else NatToDecimal(i)
    case Float(repr) => repr
  }

  /**
   An integer prints as its digits, preceded by `-` when negative; the digits
   denote its absolute value and start with a zero only for zero.
   */
  lemma RenderInt(i: int)
    ensures var r := Render(Int(i));
      && (i >= 0 ==> AllDigits(r) && DecimalValue(r) == i)
      && (i < 0 ==> |r| >= 2 && r[0] == '-' && AllDigits(r[1..]) && DecimalValue(r[1..]) == -i)
      && (i != 0 ==> r[if i < 0 then 1 else 0] != '0')
  {
    if i < 0 {
      DecimalRoundTrip(-i);
      assert Render(Int(i))[1..] == NatToDecimal(-i);
    } else {
      DecimalRoundTrip(i);
    }
  }
}
