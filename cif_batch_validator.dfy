/** Batch revalidation of tax identifiers: rows whose CIF_VALID flag is False
    or missing and whose CIF cell is filled are run through the tax-ID
    validator again, and their CIF_VALID, CIF_REASON and CIF_RECHECKED cells
    are rewritten. */
module CifBatchValidator {
  import opened Wrappers
  import opened Text
  import opened Frames
  import CifValidator

  const ValidColumn: string := "CIF_VALID"
  const ReasonColumn: string := "CIF_REASON"
  const RecheckedColumn: string := "CIF_RECHECKED"

  predicate IsStatusColumn(c: string) {
    c == ValidColumn || c == ReasonColumn || c == RecheckedColumn
  }

  /** The `cif` rules: the identifier column (default "CIF") and
      `revalidation.enabled` (default true). */
  datatype CifRules = CifRules(column: string, revalidationEnabled: bool)

  const DefaultCifRules: CifRules := CifRules("CIF", true)

  /** The three status columns, each added with its default only when absent:
      CIF_VALID None, CIF_REASON "", CIF_RECHECKED False. */
  function WithStatusColumns(t: Table): (r: Table)
    ensures |r.rows| == |t.rows|
    ensures ValidColumn in r.columns && ReasonColumn in r.columns && RecheckedColumn in r.columns
    ensures forall c :: c in t.columns ==> c in r.columns
    ensures forall c :: c in r.columns && c !in t.columns ==> IsStatusColumn(c)
    ensures WellFormed(t) ==> WellFormed(r)
    ensures ValidColumn in t.columns && ReasonColumn in t.columns && RecheckedColumn in t.columns ==> r == t
  {
    AddColumn(AddColumn(AddColumn(t, ValidColumn, Null), ReasonColumn, Str("")), RecheckedColumn, Bool(false))
  }

  /** The revalidation mask: the flag is False (or 0) or missing, and the
      identifier is neither missing nor the empty string. */
  predicate Selected(row: Row, col: string) {
    var flag := Get(row, ValidColumn);
    var v := Get(row, col);
    (EqualsFalse(flag) || IsNa(flag)) && !IsNa(v) && v != Str("")
  }

  /** `str(row.get(col, "")).strip()`. */
  function CifText(row: Row, col: string): string {
    Strip(PyStr(GetOr(row, col, Str(""))))
  }

  /** What a revalidated row records: the verdict and "ok", the error code,
      or "invalid" when there is no code. */
  datatype Outcome = Outcome(valid: bool, reason: string)

  function Revalidate(text: string): (o: Outcome)
    ensures o.valid <==> o.reason == "ok"
    ensures o.valid == CifValidator.Validate(text).isValid
    ensures var e := CifValidator.Validate(text).error;
      !o.valid ==> o.reason == (if e.Some? then e.value.Code() else "invalid")
  {
    var res := CifValidator.Validate(text);
    if res.isValid then Outcome(true, "ok")
    else
      var reason := if res.error.Some? then res.error.value.Code() else "invalid";
      Outcome(false, reason)
  }

  /** The three status cells written for one outcome. */
  function Record(row: Row, o: Outcome): (r: Row)
    ensures r.Keys == row.Keys + {ValidColumn, ReasonColumn, RecheckedColumn}
    ensures r[ValidColumn] == Bool(o.valid) && r[ReasonColumn] == Str(o.reason)
    ensures r[RecheckedColumn] == Bool(true)
    ensures forall k :: k in row && !IsStatusColumn(k) ==> r[k] == row[k]
  {
    row[ValidColumn := Bool(o.valid)][ReasonColumn := Str(o.reason)][RecheckedColumn := Bool(true)]
  }

  /** One loop step: a selected row with a non-blank identifier is
      revalidated; every other row is left as it is. */
  function RecheckRow(row: Row, col: string): (r: Row)
    ensures ValidColumn in row && ReasonColumn in row && RecheckedColumn in row ==> r.Keys == row.Keys
    ensures forall k :: k in row && !IsStatusColumn(k) ==> k in r && r[k] == row[k]
  {
    if Selected(row, col) && CifText(row, col) != [] then Record(row, Revalidate(CifText(row, col)))
    else row
  }

  /** `revalidate_cifs` as a function of the table and the rules. */
  function Revalidated(t: Table, rules: CifRules): (r: Table)
    ensures |r.rows| == |t.rows|
    ensures r.columns == WithStatusColumns(t).columns
  {
    var init := WithStatusColumns(t);
    if rules.column !in init.columns || !rules.revalidationEnabled then init
    else Table(init.columns, seq(|init.rows|, i requires 0 <= i < |init.rows| => RecheckRow(init.rows[i], rules.column)))
  }

  /** `revalidate_cifs`: initialise the status columns, return early when the
      identifier column is missing or revalidation is disabled, otherwise
      rewrite the selected rows one at a time. */
  method RevalidateCifs(t: Table, rules: CifRules) returns (r: Table)
    ensures r == Revalidated(t, rules)
  {
    var init := WithStatusColumns(t);
    if rules.column !in init.columns {
      return init;
    }
    if !rules.revalidationEnabled {
      return init;
    }
    var col := rules.column;
    var rows := init.rows;
    var i := 0;
    while i < |rows|
      invariant 0 <= i <= |rows| == |init.rows|
      invariant forall j :: 0 <= j < i ==> rows[j] == RecheckRow(init.rows[j], col)
      invariant forall j :: i <= j < |rows| ==> rows[j] == init.rows[j]
    {
      if Selected(rows[i], col) {
        var text := CifText(rows[i], col);
        if text != [] {
          var o := Revalidate(text);
          rows := rows[i := Record(rows[i], o)];
        }
      }
      i := i + 1;
    }
    r := Table(init.columns, rows);
  }

  // ---------------------------------------------------------------------
  // Properties
  // ---------------------------------------------------------------------

  /** Whether the loop runs at all: the identifier column exists and
      revalidation is enabled. */
  predicate Active(t: Table, rules: CifRules) {
    rules.column in WithStatusColumns(t).columns && rules.revalidationEnabled
  }

  lemma RowOf(t: Table, rules: CifRules, i: nat)
    requires i < |t.rows|
    ensures Revalidated(t, rules).rows[i] ==
      if Active(t, rules) then RecheckRow(WithStatusColumns(t).rows[i], rules.column) else WithStatusColumns(t).rows[i]
  {
  }

  /** Without the identifier column, or with revalidation disabled, the
      result only gains the missing status columns with their defaults. */
  lemma InactiveOnlyInitializes(t: Table, rules: CifRules, i: nat)
    requires WellFormed(t) && !Active(t, rules) && i < |t.rows|
    ensures var row := Revalidated(t, rules).rows[i];
      (forall k :: k in t.rows[i] ==> k in row && row[k] == t.rows[i][k])
      && (ValidColumn !in t.columns ==> row[ValidColumn] == Null)
      && (ReasonColumn !in t.columns ==> row[ReasonColumn] == Str(""))
      && (RecheckedColumn !in t.columns ==> row[RecheckedColumn] == Bool(false))
  {
    var t1 := AddColumn(t, ValidColumn, Null);
    var t2 := AddColumn(t1, ReasonColumn, Str(""));
    assert t1.rows[i].Keys == t.rows[i].Keys + (if ValidColumn in t.columns then {} else {ValidColumn});
    assert t2.rows[i].Keys == t1.rows[i].Keys + (if ReasonColumn in t1.columns then {} else {ReasonColumn});
  }

  /** A row whose flag is neither False nor missing (True, say) is not touched,
      so its CIF_RECHECKED keeps the value it had. */
  lemma ValidFlagUntouched(t: Table, rules: CifRules, i: nat)
    requires i < |t.rows|
    requires var flag := Get(WithStatusColumns(t).rows[i], ValidColumn); !EqualsFalse(flag) && !IsNa(flag)
    ensures Revalidated(t, rules).rows[i] == WithStatusColumns(t).rows[i]
  {
    RowOf(t, rules, i);
  }

  /** A selected row with a non-blank identifier gets the validator's verdict,
      "ok" when valid and otherwise the error code ("invalid" without one),
      and CIF_RECHECKED True. */
  lemma RevalidatedRow(t: Table, rules: CifRules, i: nat)
    requires i < |t.rows| && Active(t, rules)
    requires Selected(WithStatusColumns(t).rows[i], rules.column)
    requires CifText(WithStatusColumns(t).rows[i], rules.column) != []
    ensures var row := Revalidated(t, rules).rows[i];
      var text := CifText(WithStatusColumns(t).rows[i], rules.column);
      var res := CifValidator.Validate(text);
      row == Record(WithStatusColumns(t).rows[i], Revalidate(text))
      && row[ValidColumn] == Bool(res.isValid)
      && row[RecheckedColumn] == Bool(true)
      && (row[ValidColumn] == Bool(true) <==> row[ReasonColumn] == Str("ok"))
      && (!res.isValid ==> row[ReasonColumn] == Str(if res.error.Some? then res.error.value.Code() else "invalid"))
  {
    RowOf(t, rules, i);
  }

  /** A whitespace-only identifier passes the mask but is skipped, so it is
      never marked as rechecked. */
  lemma BlankIdentifierSkipped(t: Table, rules: CifRules, i: nat)
    requires i < |t.rows|
    requires CifText(WithStatusColumns(t).rows[i], rules.column) == []
    ensures Revalidated(t, rules).rows[i] == WithStatusColumns(t).rows[i]
  {
    RowOf(t, rules, i);
  }

  /** Every cell outside the three status columns keeps its value. */
  lemma OtherCellsUnchanged(t: Table, rules: CifRules, i: nat, k: string)
    requires WellFormed(t) && i < |t.rows| && k in t.rows[i] && !IsStatusColumn(k)
    ensures k in Revalidated(t, rules).rows[i] && Revalidated(t, rules).rows[i][k] == t.rows[i][k]
  {
    var t1 := AddColumn(t, ValidColumn, Null);
    var t2 := AddColumn(t1, ReasonColumn, Str(""));
    var t3 := AddColumn(t2, RecheckedColumn, Bool(false));
    assert t3.rows[i][k] == t.rows[i][k];
    RowOf(t, rules, i);
  }

  /** The result is a well-formed table whenever the input is. */
  lemma RevalidatedWellFormed(t: Table, rules: CifRules)
    requires WellFormed(t)
    ensures WellFormed(Revalidated(t, rules))
  {
    var init := WithStatusColumns(t);
    var r := Revalidated(t, rules);
    forall i | 0 <= i < |r.rows|
      ensures r.rows[i].Keys == ColumnSet(r)
    {
      RowOf(t, rules, i);
      assert init.rows[i].Keys == ColumnSet(init);
    }
  }

  /** Rechecking a row a second time changes nothing: a valid verdict takes
      it out of the mask, an invalid one reproduces the same cells. */
  lemma RecheckRowIdempotent(row: Row, col: string)
    requires !IsStatusColumn(col)
    ensures RecheckRow(RecheckRow(row, col), col) == RecheckRow(row, col)
  {
    if Selected(row, col) && CifText(row, col) != [] {
      var o := Revalidate(CifText(row, col));
      RecordAgain(row, col, o);
      RecordTwice(row, o);
    }
  }

  /** After recording an outcome the identifier reads the same, and a valid
      outcome takes the row out of the selection. */
  lemma RecordAgain(row: Row, col: string, o: Outcome)
    requires !IsStatusColumn(col)
    requires o.valid <==> o.reason == "ok"
    ensures CifText(Record(row, o), col) == CifText(row, col)
    ensures o.valid ==> !Selected(Record(row, o), col)
  {
    assert GetOr(Record(row, o), col, Str("")) == GetOr(row, col, Str(""));
  }

  /** Recording the same outcome twice equals recording it once. */
  lemma RecordTwice(row: Row, o: Outcome)
    ensures Record(Record(row, o), o) == Record(row, o)
  {
  }

  /** Running the revalidation twice equals running it once. */
  lemma RevalidateIdempotent(t: Table, rules: CifRules)
    requires !IsStatusColumn(rules.column)
    ensures Revalidated(Revalidated(t, rules), rules) == Revalidated(t, rules)
  {
    var r1 := Revalidated(t, rules);
    assert WithStatusColumns(r1) == r1;
    var r2 := Revalidated(r1, rules);
    if Active(t, rules) {
      forall i | 0 <= i < |r1.rows|
        ensures r2.rows[i] == r1.rows[i]
      {
        RowOf(t, rules, i);
        RowOf(r1, rules, i);
        RecheckRowIdempotent(WithStatusColumns(t).rows[i], rules.column);
      }
    }
  }

  /** On a table without CIF_RECHECKED, the flag ends True exactly on the rows
      that were revalidated: a True row stays False, while a False or missing
      flag with a filled identifier becomes True. */
  lemma RecheckedExactly(t: Table, rules: CifRules, i: nat)
    requires WellFormed(t) && RecheckedColumn !in t.columns && Active(t, rules) && i < |t.rows|
    ensures var init := WithStatusColumns(t).rows[i];
      Revalidated(t, rules).rows[i][RecheckedColumn] == Bool(true)
      <==> Selected(init, rules.column) && CifText(init, rules.column) != []
  {
    var t1 := AddColumn(t, ValidColumn, Null);
    var t2 := AddColumn(t1, ReasonColumn, Str(""));
    assert RecheckedColumn !in t2.columns;
    assert WithStatusColumns(t).rows[i][RecheckedColumn] == Bool(false);
    RowOf(t, rules, i);
  }
}
