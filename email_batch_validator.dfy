/** Batch email validation: every row's email cell is validated and the
    EMAIL_VALID, EMAIL_REASON and EMAIL_VALIDATION_LEVEL cells are rewritten.
    The MX lookup is the oracle `mx`. */
module EmailBatchValidator {
  import opened Wrappers
  import opened Text
  import opened Frames
  import EmailValidator

  const ValidColumn: string := "EMAIL_VALID"
  const ReasonColumn: string := "EMAIL_REASON"
  const LevelColumn: string := "EMAIL_VALIDATION_LEVEL"

  predicate IsStatusColumn(c: string) {
    c == ValidColumn || c == ReasonColumn || c == LevelColumn
  }

  /** The `email` rules: the email column ("EMAIL" by default) and the
      `mx_check` section's `enabled` flag and timeout. The timeout is handed to
      the resolver, so it is part of what the MX oracle `mx` stands for. */
  datatype EmailRules = EmailRules(column: string, mxEnabled: bool, mxTimeout: real)

  const DefaultEmailRules: EmailRules := EmailRules("EMAIL", true, 2.0)

  /** Absent status columns are added as EMAIL_VALID False, EMAIL_REASON ""
      and EMAIL_VALIDATION_LEVEL "none". */
  function WithStatusColumns(t: Table): (r: Table)
    ensures |r.rows| == |t.rows|
    ensures ValidColumn in r.columns && ReasonColumn in r.columns && LevelColumn in r.columns
    ensures forall c :: c in t.columns ==> c in r.columns
    ensures forall c :: c in r.columns && c !in t.columns ==> IsStatusColumn(c)
    ensures WellFormed(t) ==> WellFormed(r)
    ensures ValidColumn in t.columns && ReasonColumn in t.columns && LevelColumn in t.columns ==> r == t
  {
    AddColumn(AddColumn(AddColumn(t, ValidColumn, Bool(false)), ReasonColumn, Str("")), LevelColumn, Str("none"))
  }

  /** The three cells written for one email. */
  datatype Outcome = Outcome(valid: bool, reason: string, level: string)

  /** The outcome for one email cell: "empty" for a missing or
      whitespace-only cell, otherwise the validator's verdict on `str(email)`:
      a syntax error, a generic mailbox, a deliverable address, or a valid
      address without MX. */
  function Check(mx: string -> EmailValidator.MxOutcome, email: Value): (o: Outcome)
    ensures IsEmpty(email) ==> o == Outcome(false, "empty", "none")
    ensures !IsEmpty(email) ==> o.valid == EmailValidator.Validate(PyStr(email), mx).valid
    ensures o.valid <==> o.level == "syntax" || o.level == "mx"
    ensures o.level == "mx" <==> o.reason == "ok"
    ensures o.level == "mx" <==> !IsEmpty(email) && EmailValidator.Validate(PyStr(email), mx).deliverable
    ensures !IsEmpty(email) && EmailValidator.Validate(PyStr(email), mx).valid && EmailValidator.Validate(PyStr(email), mx).generic
      ==> o == Outcome(true, "generic_email", "syntax")
    ensures var res := EmailValidator.Validate(PyStr(email), mx);
      !IsEmpty(email) && !res.valid ==> o == Outcome(false, res.error.GetOr("invalid_syntax"), "none")
    ensures var res := EmailValidator.Validate(PyStr(email), mx);
      !IsEmpty(email) && res.valid && !res.generic && !res.deliverable ==> o == Outcome(true, res.error.GetOr("no_mx"), "syntax")
  {
    if IsEmpty(email) then Outcome(false, "empty", "none")
    else
      var res := EmailValidator.Validate(PyStr(email), mx);
      assert res.error.GetOr("invalid_syntax") != "ok" && res.error.GetOr("no_mx") != "ok";
      if !res.valid then Outcome(false, res.error.GetOr("invalid_syntax"), "none")
      else if res.generic then Outcome(true, "generic_email", "syntax")
      else if res.deliverable then Outcome(true, "ok", "mx")
      else Outcome(true, res.error.GetOr("no_mx"), "syntax")
  }

  function Record(row: Row, o: Outcome): (r: Row)
    ensures r.Keys == row.Keys + {ValidColumn, ReasonColumn, LevelColumn}
    ensures r[ValidColumn] == Bool(o.valid) && r[ReasonColumn] == Str(o.reason) && r[LevelColumn] == Str(o.level)
    ensures forall k :: k in row && !IsStatusColumn(k) ==> r[k] == row[k]
  {
    row[ValidColumn := Bool(o.valid)][ReasonColumn := Str(o.reason)][LevelColumn := Str(o.level)]
  }

  /** One loop step: the row's status cells are rewritten from its email cell. */
  function Step(mx: string -> EmailValidator.MxOutcome, row: Row, col: string): Row {
    Record(row, Check(mx, Get(row, col)))
  }

  /** `validate_all_emails` as a function of the table. `mx_check.enabled` is
      read by the source but never consulted, so it does not appear here. */
  function Validated(mx: string -> EmailValidator.MxOutcome, t: Table, rules: EmailRules): (r: Table)
    ensures |r.rows| == |t.rows|
    ensures r.columns == WithStatusColumns(t).columns
  {
    var init := WithStatusColumns(t);
    if rules.column !in init.columns then init
    else Table(init.columns, seq(|init.rows|, i requires 0 <= i < |init.rows| => Step(mx, init.rows[i], rules.column)))
  }

  /** `validate_all_emails`: initialise the status columns, return early when
      the email column is missing, otherwise rewrite every row in turn. */
  method ValidateAllEmails(mx: string -> EmailValidator.MxOutcome, t: Table, rules: EmailRules) returns (r: Table)
    ensures r == Validated(mx, t, rules)
  {
    var init := WithStatusColumns(t);
    if rules.column !in init.columns {
      return init;
    }
    var rows := init.rows;
    var i := 0;
    while i < |rows|
      invariant 0 <= i <= |rows| == |init.rows|
      invariant forall j :: 0 <= j < i ==> rows[j] == Step(mx, init.rows[j], rules.column)
      invariant forall j :: i <= j < |rows| ==> rows[j] == init.rows[j]
    {
      var email := Get(rows[i], rules.column);
      var o := Check(mx, email);
      rows := rows[i := Record(rows[i], o)];
      i := i + 1;
    }
    r := Table(init.columns, rows);
  }

  // ---------------------------------------------------------------------
  // Properties
  // ---------------------------------------------------------------------

  lemma RowOf(mx: string -> EmailValidator.MxOutcome, t: Table, rules: EmailRules, i: nat)
    requires i < |t.rows|
    ensures Validated(mx, t, rules).rows[i] ==
      if rules.column in WithStatusColumns(t).columns
      then Step(mx, WithStatusColumns(t).rows[i], rules.column)
      else WithStatusColumns(t).rows[i]
  {
  }

  /** Without the email column the result only gains the missing status
      columns with their defaults. */
  lemma MissingColumnOnlyInitializes(mx: string -> EmailValidator.MxOutcome, t: Table, rules: EmailRules, i: nat)
    requires WellFormed(t) && rules.column !in WithStatusColumns(t).columns && i < |t.rows|
    ensures var row := Validated(mx, t, rules).rows[i];
      (forall k :: k in t.rows[i] ==> k in row && row[k] == t.rows[i][k])
      && (ValidColumn !in t.columns ==> row[ValidColumn] == Bool(false))
      && (ReasonColumn !in t.columns ==> row[ReasonColumn] == Str(""))
      && (LevelColumn !in t.columns ==> row[LevelColumn] == Str("none"))
  {
    var t1 := AddColumn(t, ValidColumn, Bool(false));
    var t2 := AddColumn(t1, ReasonColumn, Str(""));
    assert t1.rows[i].Keys == t.rows[i].Keys + (if ValidColumn in t.columns then {} else {ValidColumn});
    assert t2.rows[i].Keys == t1.rows[i].Keys + (if ReasonColumn in t1.columns then {} else {ReasonColumn});
  }

  /** Every processed row gets the outcome of its own email cell: EMAIL_VALID
      True exactly when its level is "syntax" or "mx", level "mx" exactly when
      its reason is "ok" and the address is deliverable. */
  lemma ProcessedRow(mx: string -> EmailValidator.MxOutcome, t: Table, rules: EmailRules, i: nat)
    requires i < |t.rows| && rules.column in WithStatusColumns(t).columns
    ensures var init := WithStatusColumns(t).rows[i];
      var row := Validated(mx, t, rules).rows[i];
      var email := Get(init, rules.column);
      row == Record(init, Check(mx, email))
      && (row[ValidColumn] == Bool(true) <==> row[LevelColumn] == Str("syntax") || row[LevelColumn] == Str("mx"))
      && (row[LevelColumn] == Str("mx") <==> row[ReasonColumn] == Str("ok"))
      && (IsEmpty(email) ==> row[ReasonColumn] == Str("empty") && row[LevelColumn] == Str("none"))
      && (!IsEmpty(email) ==> row[ValidColumn] == Bool(EmailValidator.Validate(PyStr(email), mx).valid))
      && (row[LevelColumn] == Str("mx") <==> !IsEmpty(email) && EmailValidator.Validate(PyStr(email), mx).deliverable)
  {
    RowOf(mx, t, rules, i);
  }

  /** Every cell outside the three status columns keeps its value. */
  lemma OtherCellsUnchanged(mx: string -> EmailValidator.MxOutcome, t: Table, rules: EmailRules, i: nat, k: string)
    requires WellFormed(t) && i < |t.rows| && k in t.rows[i] && !IsStatusColumn(k)
    ensures k in Validated(mx, t, rules).rows[i] && Validated(mx, t, rules).rows[i][k] == t.rows[i][k]
  {
    var t1 := AddColumn(t, ValidColumn, Bool(false));
    var t2 := AddColumn(t1, ReasonColumn, Str(""));
    var t3 := AddColumn(t2, LevelColumn, Str("none"));
    assert t3.rows[i][k] == t.rows[i][k];
    RowOf(mx, t, rules, i);
  }

  /** The result is a well-formed table whenever the input is. */
  lemma ValidatedWellFormed(mx: string -> EmailValidator.MxOutcome, t: Table, rules: EmailRules)
    requires WellFormed(t)
    ensures WellFormed(Validated(mx, t, rules))
  {
    var init := WithStatusColumns(t);
    var r := Validated(mx, t, rules);
    forall i | 0 <= i < |r.rows|
      ensures r.rows[i].Keys == ColumnSet(r)
    {
      RowOf(mx, t, rules, i);
      assert init.rows[i].Keys == ColumnSet(init);
    }
  }

  /** The `mx_check.enabled` flag makes no difference: the MX oracle is asked
      for every valid, non-generic address either way. */
  lemma MxSettingsIgnored(mx: string -> EmailValidator.MxOutcome, t: Table, rules: EmailRules, enabled: bool)
    ensures Validated(mx, t, rules.(mxEnabled := enabled)) == Validated(mx, t, rules)
  {
  }

  lemma StepIdempotent(mx: string -> EmailValidator.MxOutcome, row: Row, col: string)
    requires !IsStatusColumn(col)
    ensures Step(mx, Step(mx, row, col), col) == Step(mx, row, col)
  {
    var o := Check(mx, Get(row, col));
    assert Get(Record(row, o), col) == Get(row, col);
  }

  /** Every row is rewritten from its email cell alone, so a second run with
      the same oracle reproduces the first. */
  lemma ValidateIdempotent(mx: string -> EmailValidator.MxOutcome, t: Table, rules: EmailRules)
    requires !IsStatusColumn(rules.column)
    ensures Validated(mx, Validated(mx, t, rules), rules) == Validated(mx, t, rules)
  {
    var r1 := Validated(mx, t, rules);
    assert WithStatusColumns(r1) == r1;
    var r2 := Validated(mx, r1, rules);
    if rules.column in WithStatusColumns(t).columns {
      forall i | 0 <= i < |r1.rows|
        ensures r2.rows[i] == r1.rows[i]
      {
        RowOf(mx, t, rules, i);
        RowOf(mx, r1, rules, i);
        StepIdempotent(mx, WithStatusColumns(t).rows[i], rules.column);
      }
    }
  }

  /** A missing email and an empty string both read "empty". */
  lemma BlankExamples(mx: string -> EmailValidator.MxOutcome)
    ensures Check(mx, Null) == Outcome(false, "empty", "none")
    ensures Check(mx, Str("")) == Outcome(false, "empty", "none")
  {
    assert Strip("") == [];
  }

  /** Text without an '@' (such as "invalid-email") fails the syntax check. */
  lemma NoAtIsInvalidSyntax(mx: string -> EmailValidator.MxOutcome, email: string)
    requires Strip(email) != [] && '@' !in email
    ensures Check(mx, Str(email)) == Outcome(false, "INVALID_SYNTAX", "none")
  {
    NoAtFailsSyntax(email);
    assert !IsEmpty(Str(email)) && PyStr(Str(email)) == email;
    var res := EmailValidator.Validate(email, mx);
    assert !res.valid && res.error == Some("INVALID_SYNTAX");
  }

  lemma NoAtFailsSyntax(email: string)
    requires '@' !in email
    ensures !EmailValidator.SyntaxOk(EmailValidator.Normalize(email))
  {
    var e := EmailValidator.Normalize(email);
    StripIsSlice(email);
    assert '@' !in Strip(email);
    assert '@' !in e;
    if EmailValidator.SyntaxOk(e) {
      EmailValidator.SyntaxOkNormalized(email);
      EmailValidator.RegexHasAt(e);
    }
  }

  lemma StripIsSlice(s: string)
    ensures forall i :: 0 <= i < |Strip(s)| ==> Strip(s)[i] in s
  {
    var t := TrimStart(s);
    TrimStartSuffix(s);
    TrimEndPrefix(t);
    forall i | 0 <= i < |Strip(s)|
      ensures Strip(s)[i] in s
    {
      assert Strip(s)[i] == t[i] == s[|s| - |t| + i];
    }
  }
}
