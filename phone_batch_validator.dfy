/** Batch phone validation: every row's phone cell is validated and the
    PHONE_VALID, PHONE_REASON and PHONE_NORMALIZED cells are rewritten. The
    validator's configuration (read from the rules file, or the defaults) is
    a parameter. */
module PhoneBatchValidator {
  import opened Wrappers
  import opened Text
  import opened Frames
  import PhoneValidator

  const ValidColumn: string := "PHONE_VALID"
  const ReasonColumn: string := "PHONE_REASON"
  const NormalizedColumn: string := "PHONE_NORMALIZED"

  predicate IsStatusColumn(c: string) {
    c == ValidColumn || c == ReasonColumn || c == NormalizedColumn
  }

  /** The `phone` rules: the phone column, "TELEFONO" by default. */
  datatype PhoneRules = PhoneRules(column: string)

  const DefaultPhoneRules: PhoneRules := PhoneRules("TELEFONO")

  /** Absent status columns are added as PHONE_VALID False, PHONE_REASON ""
      and PHONE_NORMALIZED "". */
  function WithStatusColumns(t: Table): (r: Table)
    ensures |r.rows| == |t.rows|
    ensures ValidColumn in r.columns && ReasonColumn in r.columns && NormalizedColumn in r.columns
    ensures forall c :: c in t.columns ==> c in r.columns
    ensures forall c :: c in r.columns && c !in t.columns ==> IsStatusColumn(c)
    ensures WellFormed(t) ==> WellFormed(r)
    ensures ValidColumn in t.columns && ReasonColumn in t.columns && NormalizedColumn in t.columns ==> r == t
  {
    AddColumn(AddColumn(AddColumn(t, ValidColumn, Bool(false)), ReasonColumn, Str("")), NormalizedColumn, Str(""))
  }

  /** The three cells written for one phone. */
  datatype Outcome = Outcome(valid: bool, reason: string, normalized: string)

  /** The outcome for one phone cell: "empty" for a missing or
      whitespace-only cell, otherwise
      the validator's verdict on `str(phone)`: "ok" with the international
      format, or the error code (or "invalid") with the formatted digits. */
  function Check(cfg: PhoneValidator.PhoneConfig, phone: Value): (o: Outcome)
    ensures IsEmpty(phone) ==> o == Outcome(false, "empty", "")
    ensures !IsEmpty(phone) ==> o.valid == PhoneValidator.Validate(cfg, PyStr(phone)).isValid
    ensures o.valid ==> o == Outcome(true, "ok", PhoneValidator.Validate(cfg, PyStr(phone)).internationalFormat)
    ensures !IsEmpty(phone) && !o.valid ==> o.normalized == PhoneValidator.Validate(cfg, PyStr(phone)).formattedPhone
    ensures !IsEmpty(phone) && !o.valid ==> o.reason == ErrorReason(PhoneValidator.Validate(cfg, PyStr(phone)).error)
    ensures o.valid <==> o.reason == "ok"
  {
    if IsEmpty(phone) then Outcome(false, "empty", "")
    else Verdict(PhoneValidator.Validate(cfg, PyStr(phone)))
  }

  /** The cells for a validator result: "ok" with the international format,
      or the error reason with the formatted digits. */
  function Verdict(res: PhoneValidator.PhoneValidationResult): (o: Outcome)
    ensures o.valid == res.isValid
    ensures o.valid ==> o == Outcome(true, "ok", res.internationalFormat)
    ensures !o.valid ==> o == Outcome(false, ErrorReason(res.error), res.formattedPhone)
  {
    if res.isValid then Outcome(true, "ok", res.internationalFormat)
    else Outcome(false, ErrorReason(res.error), res.formattedPhone)
  }

  /** The reason written for an invalid phone: the error code, or "invalid"
      when the result carries none. */
  function ErrorReason(e: Option<PhoneValidator.PhoneError>): (reason: string)
    ensures e.Some? ==> reason == e.value.Code()
    ensures e.None? ==> reason == "invalid"
    ensures reason != "ok"
  {
    if e.Some? then e.value.Code() else "invalid"
  }

  function Record(row: Row, o: Outcome): (r: Row)
    ensures r.Keys == row.Keys + {ValidColumn, ReasonColumn, NormalizedColumn}
    ensures r[ValidColumn] == Bool(o.valid) && r[ReasonColumn] == Str(o.reason)
    ensures r[NormalizedColumn] == Str(o.normalized)
    ensures forall k :: k in row && !IsStatusColumn(k) ==> r[k] == row[k]
  {
    row[ValidColumn := Bool(o.valid)][ReasonColumn := Str(o.reason)][NormalizedColumn := Str(o.normalized)]
  }

  /** One loop step: the row's status cells are rewritten from its phone cell. */
  function Step(cfg: PhoneValidator.PhoneConfig, row: Row, col: string): Row {
    Record(row, Check(cfg, Get(row, col)))
  }

  /** `validate_all_phones` as a function of the table. */
  function Validated(cfg: PhoneValidator.PhoneConfig, t: Table, rules: PhoneRules): (r: Table)
    ensures |r.rows| == |t.rows|
    ensures r.columns == WithStatusColumns(t).columns
  {
    var init := WithStatusColumns(t);
    if rules.column !in init.columns then init
    else Table(init.columns, seq(|init.rows|, i requires 0 <= i < |init.rows| => Step(cfg, init.rows[i], rules.column)))
  }

  /** `validate_all_phones`: initialise the status columns, return early when
      the phone column is missing, otherwise rewrite every row in turn. */
  method ValidateAllPhones(cfg: PhoneValidator.PhoneConfig, t: Table, rules: PhoneRules) returns (r: Table)
    ensures r == Validated(cfg, t, rules)
  {
    var init := WithStatusColumns(t);
    if rules.column !in init.columns {
      return init;
    }
    var rows := init.rows;
    var i := 0;
    while i < |rows|
      invariant 0 <= i <= |rows| == |init.rows|
      invariant forall j :: 0 <= j < i ==> rows[j] == Step(cfg, init.rows[j], rules.column)
      invariant forall j :: i <= j < |rows| ==> rows[j] == init.rows[j]
    {
      var phone := Get(rows[i], rules.column);
      var o := Check(cfg, phone);
      rows := rows[i := Record(rows[i], o)];
      i := i + 1;
    }
    r := Table(init.columns, rows);
  }

  // ---------------------------------------------------------------------
  // Properties
  // ---------------------------------------------------------------------

  lemma RowOf(cfg: PhoneValidator.PhoneConfig, t: Table, rules: PhoneRules, i: nat)
    requires i < |t.rows|
    ensures Validated(cfg, t, rules).rows[i] ==
      if rules.column in WithStatusColumns(t).columns
      then Step(cfg, WithStatusColumns(t).rows[i], rules.column)
      else WithStatusColumns(t).rows[i]
  {
  }

  /** Without the phone column the result only gains the missing status
      columns with their defaults. */
  lemma MissingColumnOnlyInitializes(cfg: PhoneValidator.PhoneConfig, t: Table, rules: PhoneRules, i: nat)
    requires WellFormed(t) && rules.column !in WithStatusColumns(t).columns && i < |t.rows|
    ensures var row := Validated(cfg, t, rules).rows[i];
      (forall k :: k in t.rows[i] ==> k in row && row[k] == t.rows[i][k])
      && (ValidColumn !in t.columns ==> row[ValidColumn] == Bool(false))
      && (ReasonColumn !in t.columns ==> row[ReasonColumn] == Str(""))
      && (NormalizedColumn !in t.columns ==> row[NormalizedColumn] == Str(""))
  {
    var t1 := AddColumn(t, ValidColumn, Bool(false));
    var t2 := AddColumn(t1, ReasonColumn, Str(""));
    assert t1.rows[i].Keys == t.rows[i].Keys + (if ValidColumn in t.columns then {} else {ValidColumn});
    assert t2.rows[i].Keys == t1.rows[i].Keys + (if ReasonColumn in t1.columns then {} else {ReasonColumn});
  }

  /** Every processed row gets the outcome of its own phone cell: PHONE_VALID
      True exactly when its reason is "ok", a blank phone reads (False,
      "empty", ""), a valid one ("ok", international format) and an invalid
      one (error reason, formatted digits). */
  lemma ProcessedRow(cfg: PhoneValidator.PhoneConfig, t: Table, rules: PhoneRules, i: nat)
    requires i < |t.rows| && rules.column in WithStatusColumns(t).columns
    ensures var init := WithStatusColumns(t).rows[i];
      var row := Validated(cfg, t, rules).rows[i];
      var phone := Get(init, rules.column);
      row == Record(init, Check(cfg, phone))
      && (row[ValidColumn] == Bool(true) <==> row[ReasonColumn] == Str("ok"))
      && (IsEmpty(phone) ==> row[ValidColumn] == Bool(false) && row[ReasonColumn] == Str("empty") && row[NormalizedColumn] == Str(""))
      && (!IsEmpty(phone) ==>
            var res := PhoneValidator.Validate(cfg, PyStr(phone));
            row[ValidColumn] == Bool(res.isValid)
            && row[ReasonColumn] == Str(if res.isValid then "ok" else ErrorReason(res.error))
            && row[NormalizedColumn] == Str(if res.isValid then res.internationalFormat else res.formattedPhone))
  {
    RowOf(cfg, t, rules, i);
  }

  /** Every cell outside the three status columns keeps its value. */
  lemma OtherCellsUnchanged(cfg: PhoneValidator.PhoneConfig, t: Table, rules: PhoneRules, i: nat, k: string)
    requires WellFormed(t) && i < |t.rows| && k in t.rows[i] && !IsStatusColumn(k)
    ensures k in Validated(cfg, t, rules).rows[i] && Validated(cfg, t, rules).rows[i][k] == t.rows[i][k]
  {
    var t1 := AddColumn(t, ValidColumn, Bool(false));
    var t2 := AddColumn(t1, ReasonColumn, Str(""));
    var t3 := AddColumn(t2, NormalizedColumn, Str(""));
    assert t3.rows[i][k] == t.rows[i][k];
    RowOf(cfg, t, rules, i);
  }

  /** The result is a well-formed table whenever the input is. */
  lemma ValidatedWellFormed(cfg: PhoneValidator.PhoneConfig, t: Table, rules: PhoneRules)
    requires WellFormed(t)
    ensures WellFormed(Validated(cfg, t, rules))
  {
    var init := WithStatusColumns(t);
    var r := Validated(cfg, t, rules);
    forall i | 0 <= i < |r.rows|
      ensures r.rows[i].Keys == ColumnSet(r)
    {
      RowOf(cfg, t, rules, i);
      assert init.rows[i].Keys == ColumnSet(init);
    }
  }

  lemma StepIdempotent(cfg: PhoneValidator.PhoneConfig, row: Row, col: string)
    requires !IsStatusColumn(col)
    ensures Step(cfg, Step(cfg, row, col), col) == Step(cfg, row, col)
  {
    var o := Check(cfg, Get(row, col));
    assert Get(Record(row, o), col) == Get(row, col);
  }

  /** Every row is rewritten from its phone cell alone, so a second run
      reproduces the first. */
  lemma ValidateIdempotent(cfg: PhoneValidator.PhoneConfig, t: Table, rules: PhoneRules)
    requires !IsStatusColumn(rules.column)
    ensures Validated(cfg, Validated(cfg, t, rules), rules) == Validated(cfg, t, rules)
  {
    var r1 := Validated(cfg, t, rules);
    assert WithStatusColumns(r1) == r1;
    var r2 := Validated(cfg, r1, rules);
    if rules.column in WithStatusColumns(t).columns {
      forall i | 0 <= i < |r1.rows|
        ensures r2.rows[i] == r1.rows[i]
      {
        RowOf(cfg, t, rules, i);
        RowOf(cfg, r1, rules, i);
        StepIdempotent(cfg, WithStatusColumns(t).rows[i], rules.column);
      }
    }
  }

  /** A missing phone and an empty string both read "empty". */
  lemma BlankExamples(cfg: PhoneValidator.PhoneConfig)
    ensures Check(cfg, Null) == Outcome(false, "empty", "")
    ensures Check(cfg, Str("")) == Outcome(false, "empty", "")
  {
    assert Strip("") == [];
  }

  /** "612345678" reads "ok" with its international format. */
  lemma MobileExample(s: string)
    requires s == "612345678"
    ensures Check(PhoneValidator.DefaultConfig, Str(s)) == Outcome(true, "ok", "+34 612 345 678")
  {
    PhoneValidator.MobileExampleParts(s);
    assert !IsEmpty(Str(s)) && PyStr(Str(s)) == s;
    PhoneValidator.MobileExample();
  }

  /** Removing separators from the text of a float keeps the digits and the
      trailing zero. */
  lemma FloatTextNormalize(s: string)
    requires IsDigits(s) && (s[0] == '6' || s[0] == '7' || s[0] == '8' || s[0] == '9')
    ensures Strip(s + ".0") != []
    ensures PhoneValidator.Normalize(s + ".0") == s + "0"
  {
    StripUnchanged(s + ".0");
    FloatTextDropsDot(s);
    var n := s + "0";
    assert n[0] == s[0];
    assert !StartsWith(n, "+34") && !StartsWith(n, "0034") && !StartsWith(n, "34");
  }

  lemma FloatTextDropsDot(s: string)
    requires IsDigits(s)
    ensures Remove(s + ".0", PhoneValidator.IsPhoneSeparator) == s + "0"
  {
    assert s + ".0" == s + "." + "0";
    RemoveAppend(s + ".", "0", PhoneValidator.IsPhoneSeparator);
    RemoveAppend(s, ".", PhoneValidator.IsPhoneSeparator);
    RemoveNothing(s, PhoneValidator.IsPhoneSeparator);
    RemoveNothing("0", PhoneValidator.IsPhoneSeparator);
    assert Remove(".", PhoneValidator.IsPhoneSeparator) == [];
  }

  lemma TenDigitsRejected(t: string, d: string)
    requires Strip(t) != [] && PhoneValidator.Normalize(t) == d && IsDigits(d) && |d| == 10
    ensures PhoneValidator.Validate(PhoneValidator.DefaultConfig, t)
      == PhoneValidator.PhoneValidationResult(false, d, PhoneValidator.InvalidType, "",
                                              Some(PhoneValidator.InvalidLength(9, 10)))
  {
  }

  /** A phone stored as a float is stringified with its ".0", and the dot is
      dropped as a separator, so a nine-digit number read as a float becomes
      ten digits and is refused. */
  lemma FloatPhoneRejected(n: nat)
    requires |NatText(n)| == 9
    requires var d := NatText(n)[0]; d == '6' || d == '7' || d == '8' || d == '9'
    ensures Check(PhoneValidator.DefaultConfig, Float(n as real))
      == Outcome(false, PhoneValidator.InvalidLength(9, 10).Code(), NatText(n) + "0")
  {
    IntegralFloatText(n);
    var cell := Float(n as real);
    assert PyStr(cell) == NatText(n) + ".0" && !IsEmpty(cell);
    FloatTextRejected(NatText(n));
  }

  /** The text of such a float gives ten digits, which the validator refuses. */
  lemma FloatTextRejected(s: string)
    requires IsDigits(s) && |s| == 9 && (s[0] == '6' || s[0] == '7' || s[0] == '8' || s[0] == '9')
    ensures Verdict(PhoneValidator.Validate(PhoneValidator.DefaultConfig, s + ".0"))
      == Outcome(false, PhoneValidator.InvalidLength(9, 10).Code(), s + "0")
  {
    FloatTextValidate(s);
  }

  lemma FloatTextValidate(s: string)
    requires IsDigits(s) && |s| == 9 && (s[0] == '6' || s[0] == '7' || s[0] == '8' || s[0] == '9')
    ensures PhoneValidator.Validate(PhoneValidator.DefaultConfig, s + ".0")
      == PhoneValidator.PhoneValidationResult(false, s + "0", PhoneValidator.InvalidType, "",
                                              Some(PhoneValidator.InvalidLength(9, 10)))
  {
    FloatTextNormalize(s);
    DigitsThenZero(s);
    TenDigitsRejected(s + ".0", s + "0");
  }

  lemma DigitsThenZero(s: string)
    requires IsDigits(s)
    ensures IsDigits(s + "0") && |s + "0"| == |s| + 1
  {
    var d := s + "0";
    assert forall i :: 0 <= i < |d| ==> d[i] == (if i < |s| then s[i] else '0');
  }
}
