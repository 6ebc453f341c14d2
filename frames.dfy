/** Cells, rows and tables as the lead pipeline sees them through pandas:
    a cell is one of the Python values a DataFrame column holds, a row maps
    column labels to cells, and a table is an ordered column list plus rows. */
module Frames {
  import opened Text

  /** A DataFrame cell: `None`, a float NaN, a Python bool, a `numpy.bool_`,
      an int, a finite float or a str. A row read from a frame (`df.loc[idx]`)
      holds a `numpy.bool_` for every cell of a bool-dtype column: it is truthy
      and prints like a bool, and it equals `False` under `==`, but it is not a
      Python bool for `isinstance` and is never `False` under `is`. */
  datatype Value = Null | NaN | Bool(b: bool) | NpBool(nb: bool) | Int(i: int) | Float(r: real) | Str(s: string)

  type Row = map<string, Value>

  datatype Table = Table(columns: seq<string>, rows: seq<Row>)

  function ColumnSet(t: Table): set<string> {
    set c | c in t.columns
  }

  /** Column labels are distinct and every row has exactly those labels. */
  predicate WellFormed(t: Table) {
    (forall i, j :: 0 <= i < j < |t.columns| ==> t.columns[i] != t.columns[j])
    && forall r :: 0 <= r < |t.rows| ==> t.rows[r].Keys == ColumnSet(t)
  }

  /** `row.get(k)`: a missing label reads as `None`. */
  function Get(row: Row, k: string): (v: Value)
    ensures k !in row ==> v == Null
  {
    if k in row then row[k] else Null
  }

  /** `row.get(k, default)`. */
  function GetOr(row: Row, k: string, default: Value): (v: Value)
    ensures k !in row ==> v == default
  {
    if k in row then row[k] else default
  }

  /** `pd.isna(v)` for a scalar. */
  predicate IsNa(v: Value) { v.Null? || v.NaN? }

  /** Python truthiness (`bool(v)`); NaN is truthy. */
  predicate Truthy(v: Value) {
    match v
    case Null => false
    case NaN => true
    case Bool(b) => b
    case NpBool(b) => b
    case Int(i) => i != 0
    case Float(r) => r != 0.0
    case Str(s) => s != []
  }

  /** `v == False`: true for `False`, `numpy.False_`, `0` and `0.0`. */
  predicate EqualsFalse(v: Value) {
    v == Bool(false) || v == NpBool(false) || v == Int(0) || v == Float(0.0)
  }

  /** The `_is_empty` test shared by the scoring engine and the tier-3
      enricher: `None`, a NaN float, or a whitespace-only string. */
  predicate IsEmpty(v: Value) {
    match v
    case Null => true
    case NaN => true
    case Str(s) => Strip(s) == []
    case _ => false
  }

  lemma IsEmptyExactly(v: Value)
    ensures IsEmpty(v) <==> (v == Null || v == NaN || (v.Str? && forall i :: 0 <= i < |v.s| ==> IsSpace(v.s[i])))
  {
    if v.Str? { StripEmptyIff(v.s); }
  }

  /** Fractional decimal digits of `f` in [0, 1), at most `n` of them. */
  function FracDigits(f: real, n: nat): string
    requires 0.0 <= f < 1.0
    decreases n
  {
    if n == 0 || f == 0.0 then []
    else
      var d := (f * 10.0).Floor;
      [DigitChar(d)] + FracDigits(f * 10.0 - d as real, n - 1)
  }

  /** `str(x)` for a finite float. Integral values below 10^16 print exactly
      as Python does ("612345678.0"); other values get a fixed-precision
      decimal expansion. */
  function FloatRepr(r: real): string {
    var a := if r < 0.0 then -r else r;
    var sign := if r < 0.0 then "-" else "";
    var whole := a.Floor;
    if a == whole as real then sign + NatText(whole) + ".0"
    else sign + NatText(whole) + "." + FracDigits(a - whole as real, 17)
  }

  /** `str(v)`. */
  function PyStr(v: Value): string {
    match v
    case Null => "None"
    case NaN => "nan"
    case Bool(b) => if b then "True" else "False"
    case NpBool(b) => if b then "True" else "False"
    case Int(i) => IntText(i)
    case Float(r) => FloatRepr(r)
    case Str(s) => s
  }

  lemma IntegralFloatText(n: nat)
    ensures PyStr(Float(n as real)) == NatText(n) + ".0"
  {
  }

  /** `str(v or "")`: falsy values read as the empty string. */
  function TextOr(v: Value): (s: string)
    ensures !Truthy(v) ==> s == []
    ensures Truthy(v) ==> s == PyStr(v)
  {
    if Truthy(v) then PyStr(v) else ""
  }

  /** `df.loc[idx]` on a frame whose bool-dtype columns are `boolColumns`:
      each bool of such a column comes back as a `numpy.bool_`. The two are
      alike for truthiness, `== False`, `pd.isna`, emptiness and `str()`. */
  function CrossSection(row: Row, boolColumns: set<string>): (r: Row)
    ensures r.Keys == row.Keys
    ensures forall k :: k in row && k in boolColumns && row[k].Bool? ==> r[k] == NpBool(row[k].b)
    ensures forall k :: k in row && !(k in boolColumns && row[k].Bool?) ==> r[k] == row[k]
    ensures forall k :: k in row ==>
      && Truthy(r[k]) == Truthy(row[k])
      && EqualsFalse(r[k]) == EqualsFalse(row[k])
      && IsNa(r[k]) == IsNa(row[k])
      && IsEmpty(r[k]) == IsEmpty(row[k])
      && PyStr(r[k]) == PyStr(row[k])
  {
    map k | k in row :: if k in boolColumns && row[k].Bool? then NpBool(row[k].b) else row[k]
  }

  /** `df.loc[idx] = row`: a `numpy.bool_` is stored as its column's bool;
      every other cell is stored as it is. */
  function StoreRow(row: Row): (r: Row)
    ensures r.Keys == row.Keys
    ensures forall k :: k in r ==> !r[k].NpBool?
    ensures forall k :: k in row && row[k].NpBool? ==> r[k] == Bool(row[k].nb)
    ensures forall k :: k in row && !row[k].NpBool? ==> r[k] == row[k]
  {
    map k | k in row :: if row[k].NpBool? then Bool(row[k].nb) else row[k]
  }

  /** Reading a stored row and writing it straight back changes nothing. */
  lemma StoreCrossSection(row: Row, boolColumns: set<string>)
    requires forall k :: k in row ==> !row[k].NpBool?
    ensures StoreRow(CrossSection(row, boolColumns)) == row
  {
    var r := StoreRow(CrossSection(row, boolColumns));
    assert forall k :: k in row ==> r[k] == row[k];
  }

  /** `df[c] = v` when `c` is not yet a column; an existing column is kept. */
  function AddColumn(t: Table, c: string, v: Value): (r: Table)
    ensures |r.rows| == |t.rows|
    ensures c in t.columns ==> r == t
    ensures c !in t.columns ==> r.columns == t.columns + [c]
    ensures c !in t.columns ==> forall i :: 0 <= i < |t.rows| ==> r.rows[i] == t.rows[i][c := v]
    ensures WellFormed(t) ==> WellFormed(r)
  {
    if c in t.columns then t
    else Table(t.columns + [c], seq(|t.rows|, i requires 0 <= i < |t.rows| => t.rows[i][c := v]))
  }

  /** `df[c] = v`: every row's cell `c` becomes `v`, adding the column if needed. */
  function SetColumn(t: Table, c: string, v: Value): (r: Table)
    ensures |r.rows| == |t.rows|
    ensures r.columns == if c in t.columns then t.columns else t.columns + [c]
    ensures forall i :: 0 <= i < |t.rows| ==> r.rows[i] == t.rows[i][c := v]
    ensures WellFormed(t) ==> WellFormed(r)
  {
    Table(if c in t.columns then t.columns else t.columns + [c],
          seq(|t.rows|, i requires 0 <= i < |t.rows| => t.rows[i][c := v]))
  }
}
