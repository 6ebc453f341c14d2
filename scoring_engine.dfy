/** Data-quality scoring of a lead row: a weighted completeness percentage,
    a source-confidence percentage, a High/Medium/Low label from fixed
    useful-data rules, and a provenance summary, written into five columns. */
module ScoringEngine {
  import opened Wrappers
  import opened Text
  import opened Frames

  // ---------------------------------------------------------------------
  // Configuration
  // ---------------------------------------------------------------------

  /** The `scoring` section of the validation rules, key by key; `None` is an absent key. */
  datatype CompletenessSection = CompletenessSection(
    fields: Option<seq<(string, real)>>, minPercentForHigh: Option<real>, minPercentForMedium: Option<real>)

  datatype ConfidenceSection = ConfidenceSection(
    sources: Option<map<string, real>>, minForHigh: Option<real>, minForMedium: Option<real>)

  datatype QualitySection = QualitySection(high: Option<map<string, real>>, medium: Option<map<string, real>>)

  datatype ScoringSection = ScoringSection(
    completeness: Option<CompletenessSection>, confidence: Option<ConfidenceSection>, quality: Option<QualitySection>)

  datatype ValidationRules = ValidationRules(scoring: Option<ScoringSection>)

  /** The parsed configuration. Completeness fields keep the mapping's order. */
  datatype ScoringConfig = ScoringConfig(
    completenessFields: seq<(string, real)>,
    completenessMinHigh: real,
    completenessMinMedium: real,
    confidenceSources: map<string, real>,
    confidenceMinHigh: real,
    confidenceMinMedium: real,
    qualityHigh: map<string, real>,
    qualityMedium: map<string, real>)

  const DefaultScoringConfig: ScoringConfig := ScoringConfig([], 80.0, 50.0, map[], 70.0, 40.0, map[], map[])

  /** The `completeness`, `confidence` and `quality` sections as read with
      `.get(name, {})`: an absent section (or an absent `scoring`) reads as
      one with no keys. */
  function CompletenessOf(rules: ValidationRules): CompletenessSection {
    rules.scoring.GetOr(ScoringSection(None, None, None)).completeness.GetOr(CompletenessSection(None, None, None))
  }

  function ConfidenceOf(rules: ValidationRules): ConfidenceSection {
    rules.scoring.GetOr(ScoringSection(None, None, None)).confidence.GetOr(ConfidenceSection(None, None, None))
  }

  function QualityOf(rules: ValidationRules): QualitySection {
    rules.scoring.GetOr(ScoringSection(None, None, None)).quality.GetOr(QualitySection(None, None))
  }

  /** `_parse_config`: a key present in its section is taken as given, and
      every absent key (or key of an absent section) takes its default. */
  function ParseConfig(rules: ValidationRules): (c: ScoringConfig)
    ensures rules.scoring.None? ==> c == DefaultScoringConfig
    ensures CompletenessOf(rules).fields.Some? ==> c.completenessFields == CompletenessOf(rules).fields.value
    ensures CompletenessOf(rules).fields.None? ==> c.completenessFields == []
    ensures CompletenessOf(rules).minPercentForHigh.Some? ==> c.completenessMinHigh == CompletenessOf(rules).minPercentForHigh.value
    ensures CompletenessOf(rules).minPercentForHigh.None? ==> c.completenessMinHigh == 80.0
    ensures CompletenessOf(rules).minPercentForMedium.Some? ==> c.completenessMinMedium == CompletenessOf(rules).minPercentForMedium.value
    ensures CompletenessOf(rules).minPercentForMedium.None? ==> c.completenessMinMedium == 50.0
    ensures ConfidenceOf(rules).sources.Some? ==> c.confidenceSources == ConfidenceOf(rules).sources.value
    ensures ConfidenceOf(rules).sources.None? ==> c.confidenceSources == map[]
    ensures ConfidenceOf(rules).minForHigh.Some? ==> c.confidenceMinHigh == ConfidenceOf(rules).minForHigh.value
    ensures ConfidenceOf(rules).minForHigh.None? ==> c.confidenceMinHigh == 70.0
    ensures ConfidenceOf(rules).minForMedium.Some? ==> c.confidenceMinMedium == ConfidenceOf(rules).minForMedium.value
    ensures ConfidenceOf(rules).minForMedium.None? ==> c.confidenceMinMedium == 40.0
    ensures QualityOf(rules).high.Some? ==> c.qualityHigh == QualityOf(rules).high.value
    ensures QualityOf(rules).high.None? ==> c.qualityHigh == map[]
    ensures QualityOf(rules).medium.Some? ==> c.qualityMedium == QualityOf(rules).medium.value
    ensures QualityOf(rules).medium.None? ==> c.qualityMedium == map[]
  {
    var completeness := CompletenessOf(rules);
    var confidence := ConfidenceOf(rules);
    var quality := QualityOf(rules);
    ScoringConfig(
      completeness.fields.GetOr([]),
      completeness.minPercentForHigh.GetOr(80.0),
      completeness.minPercentForMedium.GetOr(50.0),
      confidence.sources.GetOr(map[]),
      confidence.minForHigh.GetOr(70.0),
      confidence.minForMedium.GetOr(40.0),
      quality.high.GetOr(map[]),
      quality.medium.GetOr(map[]))
  }

  // ---------------------------------------------------------------------
  // Completeness
  // ---------------------------------------------------------------------

  /** `_is_valid`: a non-empty field whose `{field}_VALID` flag, when present,
      is True, a string reading "true", "1" or "yes" in any ASCII case, or a
      missing value; flags of any other type fall through to valid, among
      them a `numpy.bool_`, which is not a Python bool, even `numpy.False_`. */
  predicate IsValidField(row: Row, field: string): (ok: bool)
    ensures ok ==> !IsEmpty(Get(row, field))
    ensures field + "_VALID" !in row ==> (ok <==> !IsEmpty(Get(row, field)))
    ensures var flag := field + "_VALID";
      flag in row && row[flag].Bool? ==> (ok <==> !IsEmpty(Get(row, field)) && row[flag].b)
    ensures var flag := field + "_VALID";
      flag in row && IsNa(row[flag]) ==> (ok <==> !IsEmpty(Get(row, field)))
    ensures var flag := field + "_VALID";
      flag in row && row[flag].Str? ==> (ok <==> !IsEmpty(Get(row, field)) && Lower(row[flag].s) in ["true", "1", "yes"])
    ensures var flag := field + "_VALID";
      flag in row && (row[flag].Int? || row[flag].Float?) ==> (ok <==> !IsEmpty(Get(row, field)))
    ensures var flag := field + "_VALID";
      flag in row && row[flag].NpBool? ==> (ok <==> !IsEmpty(Get(row, field)))
  {
    !IsEmpty(Get(row, field))
    && var flag := field + "_VALID";
       (flag !in row
        || match row[flag]
           case Bool(b) => b
           case Str(s) => Lower(s) in ["true", "1", "yes"]
           case _ => true)
  }

  /** Sum of the weights of `fields`. */
  function TotalWeight(fields: seq<(string, real)>): real {
    if fields == [] then 0.0 else TotalWeight(fields[..|fields| - 1]) + fields[|fields| - 1].1
  }

  /** Sum of the weights of the fields valid in `row`. */
  function FilledWeight(fields: seq<(string, real)>, row: Row): real {
    if fields == [] then 0.0
    else
      var last := fields[|fields| - 1];
      FilledWeight(fields[..|fields| - 1], row) + (if IsValidField(row, last.0) then last.1 else 0.0)
  }

  /** The completeness percentage: valid weight over total weight, 0 when
      the total is 0 (the two-decimal rounding is not modelled). With
      non-negative weights it lies in [0, 100]. */
  function Completeness(cfg: ScoringConfig, row: Row): (score: real)
    ensures TotalWeight(cfg.completenessFields) == 0.0 ==> score == 0.0
    ensures NonNegativeWeights(cfg.completenessFields) ==> 0.0 <= score <= 100.0
  {
    var total := TotalWeight(cfg.completenessFields);
    var filled := FilledWeight(cfg.completenessFields, row);
    FilledWithinTotal(cfg.completenessFields, row);
    Percentage(filled, total);
    if total == 0.0 then 0.0 else filled / total * 100.0
  }

  /** `calculate_completeness`: one pass over the weighted fields. */
  method CalculateCompleteness(cfg: ScoringConfig, row: Row) returns (score: real)
    ensures score == Completeness(cfg, row)
  {
    var fields := cfg.completenessFields;
    var total := 0.0;
    var filled := 0.0;
    var i := 0;
    while i < |fields|
      invariant 0 <= i <= |fields|
      invariant total == TotalWeight(fields[..i])
      invariant filled == FilledWeight(fields[..i], row)
    {
      assert fields[..i + 1][..i] == fields[..i];
      var (field, weight) := fields[i];
      total := total + weight;
      if IsValidField(row, field) {
        filled := filled + weight;
      }
      i := i + 1;
    }
    assert fields[..|fields|] == fields;
    if total == 0.0 {
      score := 0.0;
    } else {
      score := filled / total * 100.0;
    }
  }

  predicate NonNegativeWeights(fields: seq<(string, real)>) {
    forall i :: 0 <= i < |fields| ==> fields[i].1 >= 0.0
  }

  lemma {:induction false} FilledWithinTotal(fields: seq<(string, real)>, row: Row)
    ensures NonNegativeWeights(fields) ==> 0.0 <= FilledWeight(fields, row) <= TotalWeight(fields)
  {
    if fields != [] {
      FilledWithinTotal(fields[..|fields| - 1], row);
    }
  }

  lemma {:induction false} AllValidFillsTotal(fields: seq<(string, real)>, row: Row)
    requires forall i :: 0 <= i < |fields| ==> IsValidField(row, fields[i].0)
    ensures FilledWeight(fields, row) == TotalWeight(fields)
  {
    if fields != [] {
      AllValidFillsTotal(fields[..|fields| - 1], row);
    }
  }

  lemma {:induction false} NoneValidFillsNothing(fields: seq<(string, real)>, row: Row)
    requires forall i :: 0 <= i < |fields| ==> !IsValidField(row, fields[i].0)
    ensures FilledWeight(fields, row) == 0.0
  {
    if fields != [] {
      NoneValidFillsNothing(fields[..|fields| - 1], row);
    }
  }

  /** Every field valid gives 100 (for a non-zero total weight). */
  lemma CompletenessAllValid(cfg: ScoringConfig, row: Row)
    requires forall i :: 0 <= i < |cfg.completenessFields| ==> IsValidField(row, cfg.completenessFields[i].0)
    requires TotalWeight(cfg.completenessFields) != 0.0
    ensures Completeness(cfg, row) == 100.0
  {
    var total := TotalWeight(cfg.completenessFields);
    AllValidFillsTotal(cfg.completenessFields, row);
    assert total / total == 1.0;
  }

  /** No field valid gives 0. */
  lemma CompletenessNoneValid(cfg: ScoringConfig, row: Row)
    requires forall i :: 0 <= i < |cfg.completenessFields| ==> !IsValidField(row, cfg.completenessFields[i].0)
    ensures Completeness(cfg, row) == 0.0
  {
    NoneValidFillsNothing(cfg.completenessFields, row);
  }

  /** Two equally weighted fields with one valid give 50. */
  lemma CompletenessHalf(row: Row)
    requires IsValidField(row, "CIF") && !IsValidField(row, "EMAIL")
    ensures Completeness(ScoringConfig([("CIF", 50.0), ("EMAIL", 50.0)], 80.0, 50.0, map[], 70.0, 40.0, map[], map[]), row) == 50.0
  {
    var fields: seq<(string, real)> := [("CIF", 50.0), ("EMAIL", 50.0)];
    assert fields[..1] == [("CIF", 50.0)];
    assert fields[..1][..0] == [];
    assert TotalWeight(fields) == 100.0;
    assert fields[..1][0].0 == "CIF";
    assert FilledWeight(fields[..1], row) == 50.0;
    assert FilledWeight(fields, row) == 50.0;
  }

  // ---------------------------------------------------------------------
  // Confidence
  // ---------------------------------------------------------------------

  /** `confidence_sources.get(key, 0)`. */
  function SourceWeight(cfg: ScoringConfig, key: string): real {
    if key in cfg.confidenceSources then cfg.confidenceSources[key] else 0.0
  }

  /** What one data point adds: weight earned and weight counted. */
  datatype Contribution = Contribution(earned: real, counted: real)

  const NoContribution := Contribution(0.0, 0.0)

  /** A validated email earns its level's weight; an email whose flag `is
      False` (also when the flag column is missing) only counts the
      syntax-only weight. */
  function EmailContribution(cfg: ScoringConfig, row: Row): Contribution {
    if IsEmpty(Get(row, "EMAIL")) then NoContribution
    else
      var emailValid := GetOr(row, "EMAIL_VALID", Bool(false));
      if Truthy(emailValid) then
        var level := GetOr(row, "EMAIL_VALIDATION_LEVEL", Str("syntax"));
        var w := SourceWeight(cfg, if level == Str("mx") then "email_mx" else "email_syntax_only");
        Contribution(w, w)
      else if emailValid == Bool(false) then Contribution(0.0, SourceWeight(cfg, "email_syntax_only"))
      else NoContribution
  }

  function PhoneContribution(cfg: ScoringConfig, row: Row): Contribution {
    if !IsEmpty(Get(row, "TELEFONO")) && Truthy(GetOr(row, "PHONE_VALID", Bool(false))) then
      var w := SourceWeight(cfg, "phone_normalized");
      Contribution(w, w)
    else NoContribution
  }

  function WebsiteContribution(cfg: ScoringConfig, row: Row): Contribution {
    if !IsEmpty(Get(row, "WEBSITE")) && Truthy(GetOr(row, "WEBSITE_SOURCE", Str(""))) then
      var w := SourceWeight(cfg, "website_validated");
      Contribution(w, w)
    else NoContribution
  }

  /** A CNAE from the official register, or from a source naming a chamber
      of commerce, earns the official weight; any other CNAE the inferred one. */
  predicate OfficialCnaeSource(source: Value) {
    source == Str("official_register") || Contains(Lower(PyStr(source)), "chamber")
  }

  function CnaeContribution(cfg: ScoringConfig, row: Row): Contribution {
    if IsEmpty(Get(row, "CNAE")) then NoContribution
    else
      var w := SourceWeight(cfg, if OfficialCnaeSource(GetOr(row, "CNAE_SOURCE", Str(""))) then "cnae_official_register" else "cnae_inferred");
      Contribution(w, w)
  }

  function Sum(cs: seq<Contribution>): (t: Contribution) {
    if cs == [] then NoContribution
    else
      var rest := Sum(cs[1..]);
      Contribution(cs[0].earned + rest.earned, cs[0].counted + rest.counted)
  }

  function Contributions(cfg: ScoringConfig, row: Row): seq<Contribution> {
    [EmailContribution(cfg, row), PhoneContribution(cfg, row), WebsiteContribution(cfg, row), CnaeContribution(cfg, row)]
  }

  predicate NonNegativeSources(cfg: ScoringConfig) {
    forall k :: k in cfg.confidenceSources ==> cfg.confidenceSources[k] >= 0.0
  }

  /** `calculate_confidence`: earned over counted weight as a percentage,
      0 when nothing (or a non-positive weight) was counted. With
      non-negative source weights it lies in [0, 100]. */
  function Confidence(cfg: ScoringConfig, row: Row): (score: real)
    ensures Sum(Contributions(cfg, row)).counted <= 0.0 ==> score == 0.0
    ensures NonNegativeSources(cfg) ==> 0.0 <= score <= 100.0
  {
    var t := Sum(Contributions(cfg, row));
    ContributionsWithin(cfg, row);
    if t.counted <= 0.0 then 0.0
    else
      Percentage(t.earned, t.counted);
      t.earned / t.counted * 100.0
  }

  /** The only penalised case: a present email explicitly flagged invalid. */
  predicate EmailPenalised(row: Row) {
    !IsEmpty(Get(row, "EMAIL")) && GetOr(row, "EMAIL_VALID", Bool(false)) == Bool(false)
  }

  lemma {:induction false} SumEarnedEqualsCounted(cs: seq<Contribution>)
    requires forall i :: 0 <= i < |cs| ==> cs[i].earned == cs[i].counted
    ensures Sum(cs).earned == Sum(cs).counted
  {
    if cs != [] {
      var rest := cs[1..];
      assert forall i :: 0 <= i < |rest| ==> rest[i] == cs[i + 1];
      SumEarnedEqualsCounted(rest);
      assert Sum(cs) == Contribution(cs[0].earned + Sum(rest).earned, cs[0].counted + Sum(rest).counted);
    }
  }

  lemma EmailEarnsWhatItCounts(cfg: ScoringConfig, row: Row)
    requires !EmailPenalised(row)
    ensures EmailContribution(cfg, row).earned == EmailContribution(cfg, row).counted
  {
  }

  /** Without the email penalty every counted weight is also earned, so the
      confidence is 0 or 100. */
  lemma ConfidenceAllOrNothing(cfg: ScoringConfig, row: Row)
    requires !EmailPenalised(row)
    ensures Confidence(cfg, row) == 0.0 || Confidence(cfg, row) == 100.0
  {
    var cs := Contributions(cfg, row);
    EmailEarnsWhatItCounts(cfg, row);
    assert |cs| == 4 && cs[0].earned == cs[0].counted;
    assert cs[1].earned == cs[1].counted && cs[2].earned == cs[2].counted && cs[3].earned == cs[3].counted;
    SumEarnedEqualsCounted(cs);
    var t := Sum(cs);
    if t.counted > 0.0 {
      assert t.earned / t.counted == 1.0;
    }
  }

  /** `calculate_confidence` penalises an email flagged invalid: its
      syntax-only weight is counted but not earned, so with non-negative
      weights and a positive syntax-only weight the confidence stays below
      100. */
  lemma PenaltyLowersConfidence(cfg: ScoringConfig, row: Row)
    requires NonNegativeSources(cfg) && EmailPenalised(row) && SourceWeight(cfg, "email_syntax_only") > 0.0
    ensures Sum(Contributions(cfg, row)).earned < Sum(Contributions(cfg, row)).counted
    ensures Confidence(cfg, row) < 100.0
  {
    PenaltyEarnsLess(cfg, row);
    var t := Sum(Contributions(cfg, row));
    RatioBelowOne(t.earned, t.counted);
  }

  lemma PenaltyEarnsLess(cfg: ScoringConfig, row: Row)
    requires NonNegativeSources(cfg) && EmailPenalised(row) && SourceWeight(cfg, "email_syntax_only") > 0.0
    ensures 0.0 <= Sum(Contributions(cfg, row)).earned < Sum(Contributions(cfg, row)).counted
  {
    var cs := Contributions(cfg, row);
    assert cs[0] == Contribution(0.0, SourceWeight(cfg, "email_syntax_only"));
    var rest := cs[1..];
    assert forall i :: 0 <= i < |rest| ==> 0.0 <= rest[i].earned <= rest[i].counted;
    SumBounds(rest);
  }

  lemma RatioBelowOne(part: real, whole: real)
    requires 0.0 <= part < whole
    ensures part / whole * 100.0 < 100.0
  {
    var q := part / whole;
    assert q * whole == part;
    assert (1.0 - q) * whole == whole - part;
  }

  lemma {:induction false} SumBounds(cs: seq<Contribution>)
    requires forall i :: 0 <= i < |cs| ==> 0.0 <= cs[i].earned <= cs[i].counted
    ensures 0.0 <= Sum(cs).earned <= Sum(cs).counted
  {
    if cs != [] {
      var rest := cs[1..];
      assert forall i :: 0 <= i < |rest| ==> rest[i] == cs[i + 1];
      SumBounds(rest);
      assert Sum(cs) == Contribution(cs[0].earned + Sum(rest).earned, cs[0].counted + Sum(rest).counted);
    }
  }

  /** With non-negative source weights every source earns at most what it
      counts, and so does their sum. */
  lemma ContributionsWithin(cfg: ScoringConfig, row: Row)
    ensures NonNegativeSources(cfg) ==>
      0.0 <= Sum(Contributions(cfg, row)).earned <= Sum(Contributions(cfg, row)).counted
  {
    if NonNegativeSources(cfg) {
      var cs := Contributions(cfg, row);
      assert forall i :: 0 <= i < |cs| ==> 0.0 <= cs[i].earned <= cs[i].counted;
      SumBounds(cs);
    }
  }

  /** A part of a positive whole, as a percentage, lies in [0, 100]. */
  lemma Percentage(part: real, whole: real)
    ensures 0.0 <= part <= whole && 0.0 < whole ==> 0.0 <= part / whole * 100.0 <= 100.0
  {
    if 0.0 <= part <= whole && 0.0 < whole {
      var q := part / whole;
      assert q * whole == part;
      assert whole - part == (1.0 - q) * whole;
    }
  }

  /** A non-empty CNAE always counts, under the official or the inferred weight. */
  lemma CnaeAlwaysCounts(cfg: ScoringConfig, row: Row)
    requires !IsEmpty(Get(row, "CNAE"))
    ensures CnaeContribution(cfg, row).earned == CnaeContribution(cfg, row).counted
    ensures CnaeContribution(cfg, row).counted ==
      (if OfficialCnaeSource(GetOr(row, "CNAE_SOURCE", Str(""))) then SourceWeight(cfg, "cnae_official_register")
       else SourceWeight(cfg, "cnae_inferred"))
  {
  }

  // ---------------------------------------------------------------------
  // Quality label
  // ---------------------------------------------------------------------

  datatype Quality = High | Medium | Low
  {
    function Name(): string {
      match this
      case High => "High"
      case Medium => "Medium"
      case Low => "Low"
    }
  }

  /** `str(row.get(k, "") or "").strip()`: missing and falsy cells read as "". */
  function CellText(row: Row, k: string): string {
    Strip(TextOr(GetOr(row, k, Str(""))))
  }

  predicate HasRealEmail(row: Row) {
    var e := CellText(row, "EMAIL_SPECIFIC");
    e != "" && e != "NO_EMAIL_FOUND" && e != "NOT_FOUND"
  }

  predicate HasRealWebsite(row: Row) {
    var w := CellText(row, "WEBSITE");
    w != "" && w != "NOT_FOUND" && w != "NO_WEBSITE_FOUND"
  }

  predicate HasRealCnae(row: Row) {
    var c := CellText(row, "CNAE");
    c != "" && c != "NOT_FOUND"
  }

  predicate HasRazonSocial(row: Row) {
    var r := CellText(row, "RAZON_SOCIAL");
    r != "" && r != "NOT_FOUND"
  }

  predicate PhoneValid(row: Row) {
    Truthy(GetOr(row, "PHONE_VALID", Bool(false)))
  }

  predicate CifFormatOk(row: Row) {
    Truthy(GetOr(row, "CIF_FORMAT_OK", Bool(false)))
  }

  predicate EmailLooksValid(row: Row) {
    var e := CellText(row, "EMAIL");
    e != "" && '@' in e
  }

  /** Number of Medium criteria met. */
  function MediumCriteria(row: Row): (n: nat)
    ensures n <= 4
    ensures n == 0 <==> !CifFormatOk(row) && !PhoneValid(row) && !EmailLooksValid(row) && !HasRazonSocial(row)
    ensures n == 4 <==> CifFormatOk(row) && PhoneValid(row) && EmailLooksValid(row) && HasRazonSocial(row)
    ensures n >= 2 <==>
      (CifFormatOk(row) && PhoneValid(row)) || (CifFormatOk(row) && EmailLooksValid(row))
      || (CifFormatOk(row) && HasRazonSocial(row)) || (PhoneValid(row) && EmailLooksValid(row))
      || (PhoneValid(row) && HasRazonSocial(row)) || (EmailLooksValid(row) && HasRazonSocial(row))
  {
    (if CifFormatOk(row) then 1 else 0) + (if PhoneValid(row) then 1 else 0)
    + (if EmailLooksValid(row) then 1 else 0) + (if HasRazonSocial(row) then 1 else 0)
  }

  predicate HighCriteria(row: Row) {
    HasRealEmail(row) || (HasRealWebsite(row) && HasRealCnae(row)) || (PhoneValid(row) && HasRazonSocial(row))
  }

  /** `assign_data_quality`; the two scores are accepted but never read. */
  function AssignDataQuality(completeness: real, confidence: real, row: Row): (q: Quality)
    ensures q == High <==> HighCriteria(row)
    ensures q == Medium <==> !HighCriteria(row) && MediumCriteria(row) >= 2
  {
    if HasRealEmail(row) then High
    else if HasRealWebsite(row) && HasRealCnae(row) then High
    else if PhoneValid(row) && HasRazonSocial(row) then High
    else if MediumCriteria(row) >= 2 then Medium
    else Low
  }

  /** The label depends on the row alone. */
  lemma QualityIgnoresScores(c1: real, d1: real, c2: real, d2: real, row: Row)
    ensures AssignDataQuality(c1, d1, row) == AssignDataQuality(c2, d2, row)
  {
  }

  /** A valid phone together with a company name is already High, so Medium
      needs a well-formed CIF or an email containing '@'. */
  lemma MediumNeedsCifOrEmail(c: real, d: real, row: Row)
    requires AssignDataQuality(c, d, row) == Medium
    ensures CifFormatOk(row) || EmailLooksValid(row)
  {
  }

  /** A NaN cell reads as the text "nan", which counts as real data. */
  lemma NanCountsAsRealEmail(row: Row)
    requires "EMAIL_SPECIFIC" in row && row["EMAIL_SPECIFIC"] == NaN
    ensures HasRealEmail(row)
    ensures AssignDataQuality(0.0, 0.0, row) == High
  {
    assert CellText(row, "EMAIL_SPECIFIC") == "nan" by {
      StripUnchanged("nan");
    }
  }

  // ---------------------------------------------------------------------
  // Sources summary
  // ---------------------------------------------------------------------

  /** The email entry: the validation level, when there is an email and a
      level. */
  function EmailEntry(row: Row): (r: seq<string>)
    ensures |r| <= 1
    ensures r != [] <==> !IsEmpty(Get(row, "EMAIL")) && Truthy(GetOr(row, "EMAIL_VALIDATION_LEVEL", Str("")))
    ensures r != [] ==> r[0] == "email:" + PyStr(GetOr(row, "EMAIL_VALIDATION_LEVEL", Str("")))
  {
    var level := GetOr(row, "EMAIL_VALIDATION_LEVEL", Str(""));
    if !IsEmpty(Get(row, "EMAIL")) && Truthy(level) then ["email:" + PyStr(level)] else []
  }

  /** The phone entry, for a phone marked valid. */
  function PhoneEntry(row: Row): (r: seq<string>)
    ensures |r| <= 1
    ensures r != [] <==> !IsEmpty(Get(row, "TELEFONO")) && PhoneValid(row)
    ensures r != [] ==> r[0] == "phone:normalized"
  {
    if !IsEmpty(Get(row, "TELEFONO")) && PhoneValid(row) then ["phone:normalized"] else []
  }

  /** The entry for a source column ("website:" or "cnae:" followed by the
      source), when the source is set. */
  function SourceEntry(row: Row, tag: string, column: string): (r: seq<string>)
    ensures |r| <= 1
    ensures r != [] <==> Truthy(Get(row, column))
    ensures r != [] ==> r[0] == tag + PyStr(Get(row, column))
  {
    if Truthy(Get(row, column)) then [tag + PyStr(Get(row, column))] else []
  }

  /** The summary entries, in order: email level, phone, website and CNAE source. */
  function SummaryParts(row: Row): (parts: seq<string>)
    ensures forall i :: 0 <= i < |parts| ==> parts[i] != []
    ensures |parts| <= 4
  {
    EmailEntry(row) + PhoneEntry(row) + SourceEntry(row, "website:", "WEBSITE_SOURCE")
      + SourceEntry(row, "cnae:", "CNAE_SOURCE")
  }

  /** `_build_sources_summary`: the entries joined by "; ". */
  function SourcesSummary(row: Row): (s: string)
    ensures s == [] <==> SummaryParts(row) == []
    ensures |SummaryParts(row)| == 1 ==> s == SummaryParts(row)[0]
  {
    var parts := SummaryParts(row);
    assert parts != [] ==> parts[0] != [];
    Join(parts, "; ")
  }

  /** The email entry comes first whenever it is present. */
  lemma SummaryStartsWithEmail(row: Row)
    requires !IsEmpty(Get(row, "EMAIL")) && Truthy(GetOr(row, "EMAIL_VALIDATION_LEVEL", Str("")))
    ensures StartsWith(SourcesSummary(row), "email:")
  {
    var parts := SummaryParts(row);
    assert parts[0] == "email:" + PyStr(GetOr(row, "EMAIL_VALIDATION_LEVEL", Str("")));
    if |parts| > 1 {
      assert SourcesSummary(row) == parts[0] + ("; " + Join(parts[1..], "; "));
    }
  }

  /** The entry labels, in the order the summary lists them. */
  const EntryLabels: seq<string> := ["email:", "phone:", "website:", "cnae:"]

  /** The position of an entry's label in `EntryLabels` (4 for none). */
  function EntryKind(e: string): (k: nat)
    ensures k <= 4
    ensures k < 4 ==> StartsWith(e, EntryLabels[k])
  {
    if StartsWith(e, "email:") then 0
    else if StartsWith(e, "phone:") then 1
    else if StartsWith(e, "website:") then 2
    else if StartsWith(e, "cnae:") then 3
    else 4
  }

  /** An entry built from the k-th label has kind k. */
  lemma LabelKind(k: nat, x: string)
    requires k < 4
    ensures EntryKind(EntryLabels[k] + x) == k
  {
    var e := EntryLabels[k] + x;
    assert e[0] == EntryLabels[k][0];
    assert e[..|EntryLabels[k]|] == EntryLabels[k];
  }

  lemma PhoneKind()
    ensures EntryKind("phone:normalized") == 1
  {
    var e := "phone:normalized";
    assert e[0] == 'p';
    assert e[..6] == "phone:";
  }

  /** Which entries the summary holds: each one is present exactly when its
      source says so, and then carries that source's text. */
  lemma SummaryEntries(row: Row)
    ensures var level := GetOr(row, "EMAIL_VALIDATION_LEVEL", Str(""));
      ("email:" + PyStr(level) in SummaryParts(row)) <==> !IsEmpty(Get(row, "EMAIL")) && Truthy(level)
    ensures ("phone:normalized" in SummaryParts(row)) <==> !IsEmpty(Get(row, "TELEFONO")) && PhoneValid(row)
    ensures var src := Get(row, "WEBSITE_SOURCE");
      ("website:" + PyStr(src) in SummaryParts(row)) <==> Truthy(src)
    ensures var src := Get(row, "CNAE_SOURCE");
      ("cnae:" + PyStr(src) in SummaryParts(row)) <==> Truthy(src)
  {
    var e, p := EmailEntry(row), PhoneEntry(row);
    var w, c := SourceEntry(row, "website:", "WEBSITE_SOURCE"), SourceEntry(row, "cnae:", "CNAE_SOURCE");
    var level := PyStr(GetOr(row, "EMAIL_VALIDATION_LEVEL", Str("")));
    var website, cnae := PyStr(Get(row, "WEBSITE_SOURCE")), PyStr(Get(row, "CNAE_SOURCE"));
    EntryKinds(row);
    LabelKind(0, level);
    PhoneKind();
    LabelKind(2, website);
    LabelKind(3, cnae);
    assert forall x :: x in SummaryParts(row) <==> x in e || x in p || x in w || x in c;
  }

  /** Each entry helper yields entries of its own kind. */
  lemma EntryKinds(row: Row)
    ensures forall x :: x in EmailEntry(row) ==> EntryKind(x) == 0
    ensures forall x :: x in PhoneEntry(row) ==> EntryKind(x) == 1
    ensures forall x :: x in SourceEntry(row, "website:", "WEBSITE_SOURCE") ==> EntryKind(x) == 2
    ensures forall x :: x in SourceEntry(row, "cnae:", "CNAE_SOURCE") ==> EntryKind(x) == 3
  {
    LabelKind(0, PyStr(GetOr(row, "EMAIL_VALIDATION_LEVEL", Str(""))));
    PhoneKind();
    LabelKind(2, PyStr(Get(row, "WEBSITE_SOURCE")));
    LabelKind(3, PyStr(Get(row, "CNAE_SOURCE")));
  }

  /** The entries appear in the order email, phone, website, CNAE, each at
      most once. */
  lemma SummaryOrder(row: Row)
    ensures KindsIncreasing(SummaryParts(row))
  {
    var e, p := EmailEntry(row), PhoneEntry(row);
    var w, c := SourceEntry(row, "website:", "WEBSITE_SOURCE"), SourceEntry(row, "cnae:", "CNAE_SOURCE");
    EntryKinds(row);
    assert SummaryParts(row) == e + p + w + c;
    KindsIncrease(e, p, w, c);
  }

  /** Entries listed in strictly increasing kind. */
  predicate KindsIncreasing(s: seq<string>) {
    forall i, j :: 0 <= i < j < |s| ==> EntryKind(s[i]) < EntryKind(s[j])
  }

  /** Two increasing lists, every kind of the first below every kind of the
      second, join into an increasing list. */
  lemma IncreasingAppend(s: seq<string>, t: seq<string>)
    requires KindsIncreasing(s) && KindsIncreasing(t)
    requires forall x, y :: x in s && y in t ==> EntryKind(x) < EntryKind(y)
    ensures KindsIncreasing(s + t)
  {
    var u := s + t;
    forall i, j | 0 <= i < j < |u|
      ensures EntryKind(u[i]) < EntryKind(u[j])
    {
      if j < |s| {
        assert u[i] == s[i] && u[j] == s[j];
      } else if i >= |s| {
        assert u[i] == t[i - |s|] && u[j] == t[j - |s|];
      } else {
        assert u[i] == s[i] && u[j] == t[j - |s|];
      }
    }
  }

  /** Four pieces of at most one entry each, of kinds 0, 1, 2 and 3, list
      their entries in increasing kind. */
  lemma KindsIncrease(e: seq<string>, p: seq<string>, w: seq<string>, c: seq<string>)
    requires |e| <= 1 && |p| <= 1 && |w| <= 1 && |c| <= 1
    requires forall x :: x in e ==> EntryKind(x) == 0
    requires forall x :: x in p ==> EntryKind(x) == 1
    requires forall x :: x in w ==> EntryKind(x) == 2
    requires forall x :: x in c ==> EntryKind(x) == 3
    ensures KindsIncreasing(e + p + w + c)
  {
    IncreasingAppend(e, p);
    IncreasingAppend(e + p, w);
    IncreasingAppend(e + p + w, c);
  }

  /** Every entry can be read off the joined summary. */
  lemma SummaryContainsEntries(row: Row)
    ensures forall i :: 0 <= i < |SummaryParts(row)| ==> Contains(SourcesSummary(row), SummaryParts(row)[i])
  {
    forall i | 0 <= i < |SummaryParts(row)|
      ensures Contains(SourcesSummary(row), SummaryParts(row)[i])
    {
      JoinContains(SummaryParts(row), "; ", i);
    }
  }

  lemma JoinThree(a: string, b: string, c: string, sep: string)
    ensures Join([a, b, c], sep) == a + sep + b + sep + c
  {
    assert [a, b, c][1..] == [b, c] && [b, c][1..] == [c];
    assert Join([c], sep) == c;
    assert Join([b, c], sep) == b + sep + c;
  }

  /** A row with a validated email, a found website and a CNAE from the
      chamber of commerce, and no phone. */
  lemma SummaryExample(row: Row)
    requires Get(row, "EMAIL") == Str("info@acme.es")
    requires GetOr(row, "EMAIL_VALIDATION_LEVEL", Str("")) == Str("mx")
    requires Get(row, "TELEFONO") == Null
    requires Get(row, "WEBSITE_SOURCE") == Str("search")
    requires Get(row, "CNAE_SOURCE") == Str("chamber")
    ensures SourcesSummary(row) == "email:mx" + "; " + "website:search" + "; " + "cnae:chamber"
  {
    assert Strip("info@acme.es") == "info@acme.es" by {
      StripUnchanged("info@acme.es");
    }
    assert !IsEmpty(Get(row, "EMAIL"));
    assert "email:" + PyStr(Str("mx")) == "email:mx";
    assert "website:" + PyStr(Str("search")) == "website:search";
    assert "cnae:" + PyStr(Str("chamber")) == "cnae:chamber";
    var parts := ["email:mx", "website:search", "cnae:chamber"];
    assert SummaryParts(row) == parts;
    JoinThree("email:mx", "website:search", "cnae:chamber", "; ");
  }

  // ---------------------------------------------------------------------
  // Annotation
  // ---------------------------------------------------------------------

  const ScoreColumns: seq<string> := ["COMPLETITUD_SCORE", "CONFIDENCE_SCORE", "DATA_QUALITY", "LAST_UPDATED", "DATA_SOURCES"]

  /** The four values `annotate_row` computes. */
  datatype Scores = Scores(completeness: real, confidence: real, quality: Quality, sources: string)

  /** `annotate_row`'s computation: the completeness and confidence
      percentages, the label of the row, and its sources summary. */
  function ScoresOf(cfg: ScoringConfig, row: Row): (sc: Scores)
    ensures sc.completeness == Completeness(cfg, row) && sc.confidence == Confidence(cfg, row)
    ensures sc.quality == AssignDataQuality(sc.completeness, sc.confidence, row)
    ensures sc.sources == SourcesSummary(row)
  {
    var completeness := Completeness(cfg, row);
    var confidence := Confidence(cfg, row);
    Scores(completeness, confidence, AssignDataQuality(completeness, confidence, row), SourcesSummary(row))
  }

  /** Writes the scores and the timestamp into the five scoring columns. */
  function WriteScores(row: Row, sc: Scores, timestamp: string): (r: Row)
    ensures r.Keys == row.Keys + {"COMPLETITUD_SCORE", "CONFIDENCE_SCORE", "DATA_QUALITY", "LAST_UPDATED", "DATA_SOURCES"}
    ensures forall k :: k in row && k !in ScoreColumns ==> r[k] == row[k]
    ensures r["COMPLETITUD_SCORE"] == Float(sc.completeness)
    ensures r["CONFIDENCE_SCORE"] == Float(sc.confidence)
    ensures r["DATA_QUALITY"] == Str(sc.quality.Name())
    ensures r["LAST_UPDATED"] == Str(timestamp)
    ensures r["DATA_SOURCES"] == Str(sc.sources)
  {
    row["COMPLETITUD_SCORE" := Float(sc.completeness)]
       ["CONFIDENCE_SCORE" := Float(sc.confidence)]
       ["DATA_QUALITY" := Str(sc.quality.Name())]
       ["LAST_UPDATED" := Str(timestamp)]
       ["DATA_SOURCES" := Str(sc.sources)]
  }

  /** Whatever a row held in a scoring column is overwritten. */
  lemma WriteScoresOverwrites(row: Row, c: string, v: Value, sc: Scores, timestamp: string)
    requires c in ScoreColumns
    ensures WriteScores(row[c := v], sc, timestamp) == WriteScores(row, sc, timestamp)
  {
    var a := WriteScores(row[c := v], sc, timestamp);
    var b := WriteScores(row, sc, timestamp);
    assert a.Keys == b.Keys;
    forall k | k in a.Keys
      ensures a[k] == b[k]
    {
    }
  }

  /** `annotate_row`: the row with the five scoring columns set; `timestamp`
      stands for the clock reading. */
  function AnnotateRow(cfg: ScoringConfig, row: Row, timestamp: string): Row {
    WriteScores(row, ScoresOf(cfg, row), timestamp)
  }

  /** An annotated row gains the five scoring columns, holding the
      completeness and confidence percentages, the label, the timestamp and
      the sources summary, and keeps every other cell. */
  lemma AnnotateRowCells(cfg: ScoringConfig, row: Row, timestamp: string)
    ensures var r := AnnotateRow(cfg, row, timestamp);
      && r.Keys == row.Keys + {"COMPLETITUD_SCORE", "CONFIDENCE_SCORE", "DATA_QUALITY", "LAST_UPDATED", "DATA_SOURCES"}
      && (forall k :: k in row && k !in ScoreColumns ==> r[k] == row[k])
      && r["COMPLETITUD_SCORE"] == Float(Completeness(cfg, row))
      && r["CONFIDENCE_SCORE"] == Float(Confidence(cfg, row))
      && r["DATA_QUALITY"] == Str(AssignDataQuality(Completeness(cfg, row), Confidence(cfg, row), row).Name())
      && r["LAST_UPDATED"] == Str(timestamp)
      && r["DATA_SOURCES"] == Str(SourcesSummary(row))
  {
  }

  /** The columns the confidence, quality and summary rules read. */
  const ReadColumns: seq<string> := [
    "EMAIL", "EMAIL_VALID", "EMAIL_VALIDATION_LEVEL", "EMAIL_SPECIFIC", "TELEFONO", "PHONE_VALID",
    "WEBSITE", "WEBSITE_SOURCE", "CNAE", "CNAE_SOURCE", "RAZON_SOCIAL", "CIF_FORMAT_OK"]

  lemma ReadColumnsAreNotScoreColumns(c: string)
    requires c in ScoreColumns
    ensures c !in ReadColumns
  {
  }

  lemma GetUnchanged(row: Row, c: string, v: Value)
    requires c in ScoreColumns
    ensures forall k :: k in ReadColumns ==> Get(row[c := v], k) == Get(row, k)
    ensures forall k, d :: k in ReadColumns ==> GetOr(row[c := v], k, d) == GetOr(row, k, d)
  {
    ReadColumnsAreNotScoreColumns(c);
  }

  lemma ConfidenceIgnoresScoreColumns(cfg: ScoringConfig, row: Row, c: string, v: Value)
    requires c in ScoreColumns
    ensures Confidence(cfg, row[c := v]) == Confidence(cfg, row)
  {
    var r := row[c := v];
    assert EmailContribution(cfg, r) == EmailContribution(cfg, row) by {
      EmailIgnoresScoreColumns(cfg, row, c, v);
    }
    assert Contributions(cfg, r)[1..] == Contributions(cfg, row)[1..] by {
      GetUnchanged(row, c, v);
      assert PhoneContribution(cfg, r) == PhoneContribution(cfg, row);
      assert WebsiteContribution(cfg, r) == WebsiteContribution(cfg, row);
      assert CnaeContribution(cfg, r) == CnaeContribution(cfg, row);
    }
    assert Contributions(cfg, r) == Contributions(cfg, row);
  }

  lemma EmailIgnoresScoreColumns(cfg: ScoringConfig, row: Row, c: string, v: Value)
    requires c in ScoreColumns
    ensures EmailContribution(cfg, row[c := v]) == EmailContribution(cfg, row)
  {
    GetUnchanged(row, c, v);
    var r := row[c := v];
    assert Get(r, "EMAIL") == Get(row, "EMAIL");
    assert GetOr(r, "EMAIL_VALID", Bool(false)) == GetOr(row, "EMAIL_VALID", Bool(false));
    assert GetOr(r, "EMAIL_VALIDATION_LEVEL", Str("syntax")) == GetOr(row, "EMAIL_VALIDATION_LEVEL", Str("syntax"));
  }

  lemma SummaryIgnoresScoreColumns(row: Row, c: string, v: Value)
    requires c in ScoreColumns
    ensures SourcesSummary(row[c := v]) == SourcesSummary(row)
  {
    GetUnchanged(row, c, v);
    var r := row[c := v];
    assert EmailEntry(r) == EmailEntry(row);
    assert PhoneEntry(r) == PhoneEntry(row);
    assert SourceEntry(r, "website:", "WEBSITE_SOURCE") == SourceEntry(row, "website:", "WEBSITE_SOURCE");
    assert SourceEntry(r, "cnae:", "CNAE_SOURCE") == SourceEntry(row, "cnae:", "CNAE_SOURCE");
  }

  lemma CellUnchanged(row: Row, c: string, v: Value, k: string)
    requires c in ScoreColumns && k in ReadColumns
    ensures CellText(row[c := v], k) == CellText(row, k)
    ensures GetOr(row[c := v], k, Bool(false)) == GetOr(row, k, Bool(false))
  {
    ReadColumnsAreNotScoreColumns(c);
  }

  lemma QualityIgnoresScoreColumns(row: Row, c: string, v: Value)
    requires c in ScoreColumns
    ensures HighCriteria(row[c := v]) == HighCriteria(row)
    ensures MediumCriteria(row[c := v]) == MediumCriteria(row)
  {
    var r := row[c := v];
    assert HasRealEmail(r) == HasRealEmail(row) by { CellUnchanged(row, c, v, "EMAIL_SPECIFIC"); }
    assert HasRealWebsite(r) == HasRealWebsite(row) by { CellUnchanged(row, c, v, "WEBSITE"); }
    assert HasRealCnae(r) == HasRealCnae(row) by { CellUnchanged(row, c, v, "CNAE"); }
    assert HasRazonSocial(r) == HasRazonSocial(row) by { CellUnchanged(row, c, v, "RAZON_SOCIAL"); }
    assert EmailLooksValid(r) == EmailLooksValid(row) by { CellUnchanged(row, c, v, "EMAIL"); }
    assert PhoneValid(r) == PhoneValid(row) by { CellUnchanged(row, c, v, "PHONE_VALID"); }
    assert CifFormatOk(r) == CifFormatOk(row) by { CellUnchanged(row, c, v, "CIF_FORMAT_OK"); }
  }

  lemma {:induction false} FilledIgnores(fields: seq<(string, real)>, row: Row, c: string, v: Value)
    requires c in ScoreColumns
    requires forall i :: 0 <= i < |fields| ==> fields[i].0 !in ScoreColumns && fields[i].0 + "_VALID" !in ScoreColumns
    ensures FilledWeight(fields, row[c := v]) == FilledWeight(fields, row)
  {
    if fields != [] {
      var last := fields[|fields| - 1];
      assert last.0 != c && last.0 + "_VALID" != c;
      assert IsValidField(row[c := v], last.0) == IsValidField(row, last.0);
      FilledIgnores(fields[..|fields| - 1], row, c, v);
    }
  }

  /** Completeness fields that are not themselves scoring columns. */
  predicate FieldsAvoidScoreColumns(cfg: ScoringConfig) {
    forall i :: 0 <= i < |cfg.completenessFields| ==>
      cfg.completenessFields[i].0 !in ScoreColumns && cfg.completenessFields[i].0 + "_VALID" !in ScoreColumns
  }

  /** None of the scores reads a scoring column, so the values a row holds
      there do not change its annotation. */
  lemma AnnotationIgnoresScoreColumns(cfg: ScoringConfig, row: Row, c: string, v: Value, timestamp: string)
    requires c in ScoreColumns && FieldsAvoidScoreColumns(cfg)
    ensures AnnotateRow(cfg, row[c := v], timestamp) == AnnotateRow(cfg, row, timestamp)
  {
    ScoresIgnoreScoreColumns(cfg, row, c, v);
    WriteScoresOverwrites(row, c, v, ScoresOf(cfg, row), timestamp);
  }

  lemma ScoresIgnoreScoreColumns(cfg: ScoringConfig, row: Row, c: string, v: Value)
    requires c in ScoreColumns && FieldsAvoidScoreColumns(cfg)
    ensures ScoresOf(cfg, row[c := v]) == ScoresOf(cfg, row)
  {
    var r := row[c := v];
    var x, y := Completeness(cfg, row), Confidence(cfg, row);
    assert Completeness(cfg, r) == x by {
      FilledIgnores(cfg.completenessFields, row, c, v);
    }
    assert Confidence(cfg, r) == y by {
      ConfidenceIgnoresScoreColumns(cfg, row, c, v);
    }
    assert SourcesSummary(r) == SourcesSummary(row) by {
      SummaryIgnoresScoreColumns(row, c, v);
    }
    assert AssignDataQuality(x, y, r) == AssignDataQuality(x, y, row) by {
      QualityIgnoresScoreColumns(row, c, v);
    }
  }

  /** The table after the five scoring columns are initialised to 0.0, 0.0,
      "Low", "" and "". */
  function InitScoreColumns(t: Table): (r: Table)
    ensures |r.rows| == |t.rows|
    ensures WellFormed(t) ==> WellFormed(r)
    ensures forall c :: c in ScoreColumns ==> c in r.columns
  {
    var t1 := SetColumn(t, "COMPLETITUD_SCORE", Float(0.0));
    var t2 := SetColumn(t1, "CONFIDENCE_SCORE", Float(0.0));
    var t3 := SetColumn(t2, "DATA_QUALITY", Str("Low"));
    var t4 := SetColumn(t3, "LAST_UPDATED", Str(""));
    var t5 := SetColumn(t4, "DATA_SOURCES", Str(""));
    assert "COMPLETITUD_SCORE" in t1.columns;
    assert "CONFIDENCE_SCORE" in t2.columns && "COMPLETITUD_SCORE" in t2.columns;
    t5
  }

  /** Annotating a row that already has the scoring columns keeps its labels. */
  lemma AnnotateKeepsKeys(cfg: ScoringConfig, row: Row, timestamp: string)
    requires forall c :: c in ScoreColumns ==> c in row
    ensures AnnotateRow(cfg, row, timestamp).Keys == row.Keys
  {
    AnnotateRowCells(cfg, row, timestamp);
  }

  /** One step of `annotate_dataframe`: row `i` is read with `df.loc`,
      annotated, and written back. */
  function AnnotateStored(cfg: ScoringConfig, row: Row, boolColumns: set<string>, timestamp: string): Row {
    StoreRow(AnnotateRow(cfg, CrossSection(row, boolColumns), timestamp))
  }

  /** Annotating every row of the initialised table keeps it well formed. */
  lemma AnnotatedWellFormed(cfg: ScoringConfig, init: Table, boolColumns: set<string>, rows: seq<Row>, clock: nat -> string)
    requires WellFormed(init) && forall c :: c in ScoreColumns ==> c in init.columns
    requires |rows| == |init.rows|
    requires forall j :: 0 <= j < |rows| ==> rows[j] == AnnotateStored(cfg, init.rows[j], boolColumns, clock(j))
    ensures WellFormed(Table(init.columns, rows))
  {
    forall j | 0 <= j < |rows|
      ensures rows[j].Keys == ColumnSet(init)
    {
      AnnotateKeepsKeys(cfg, CrossSection(init.rows[j], boolColumns), clock(j));
    }
  }

  /** A `{field}_VALID` flag stored in a bool-dtype column is ignored by
      `_is_valid` once `annotate_dataframe` reads the row: a non-empty field
      is valid even when its flag is False. */
  lemma NumpyFlagIgnoredByIsValid(row: Row, field: string, boolColumns: set<string>)
    requires field + "_VALID" in row && field + "_VALID" in boolColumns && row[field + "_VALID"].Bool?
    ensures IsValidField(CrossSection(row, boolColumns), field) <==> !IsEmpty(Get(row, field))
  {
    var r := CrossSection(row, boolColumns);
    assert r[field + "_VALID"].NpBool?;
    assert IsEmpty(Get(r, field)) == IsEmpty(Get(row, field));
  }

  /** An EMAIL_VALID flag stored in a bool-dtype column is never penalised
      once `annotate_dataframe` reads the row: `numpy.False_` is falsy but
      not `False` under `is`, so `calculate_confidence` neither earns nor
      counts the email, the confidence is 0 or 100, and `_is_valid` finds a
      non-empty email valid whatever its flag. */
  lemma NumpyFlagNeverPenalised(cfg: ScoringConfig, row: Row, boolColumns: set<string>)
    requires "EMAIL_VALID" in row && "EMAIL_VALID" in boolColumns && row["EMAIL_VALID"].Bool?
    ensures var r := CrossSection(row, boolColumns);
      && !EmailPenalised(r)
      && (row["EMAIL_VALID"] == Bool(false) ==> EmailContribution(cfg, r) == NoContribution)
      && (Confidence(cfg, r) == 0.0 || Confidence(cfg, r) == 100.0)
      && (IsValidField(r, "EMAIL") <==> !IsEmpty(Get(row, "EMAIL")))
  {
    var r := CrossSection(row, boolColumns);
    assert "EMAIL" + "_VALID" == "EMAIL_VALID";
    assert r["EMAIL_VALID"] == NpBool(row["EMAIL_VALID"].b);
    NumpyFlagIgnoredByIsValid(row, "EMAIL", boolColumns);
    ConfidenceAllOrNothing(cfg, r);
  }

  /** The same row with a Python `False` flag, as `annotate_row` sees it when
      called on its own, is penalised. */
  lemma PythonFalseFlagPenalised(row: Row)
    requires !IsEmpty(Get(row, "EMAIL")) && "EMAIL_VALID" in row && row["EMAIL_VALID"] == Bool(false)
    ensures EmailPenalised(row) && !IsValidField(row, "EMAIL")
  {
    assert "EMAIL" + "_VALID" == "EMAIL_VALID";
  }

  /** The initial values of the scoring columns never reach the annotation:
      an initialised row is annotated exactly like the original row. */
  lemma InitRowAnnotatesLikeOriginal(cfg: ScoringConfig, t: Table, i: nat, timestamp: string)
    requires i < |t.rows| && FieldsAvoidScoreColumns(cfg)
    ensures AnnotateRow(cfg, InitScoreColumns(t).rows[i], timestamp) == AnnotateRow(cfg, t.rows[i], timestamp)
  {
    var r0 := t.rows[i];
    var r1 := r0["COMPLETITUD_SCORE" := Float(0.0)];
    var r2 := r1["CONFIDENCE_SCORE" := Float(0.0)];
    var r3 := r2["DATA_QUALITY" := Str("Low")];
    var r4 := r3["LAST_UPDATED" := Str("")];
    var r5 := r4["DATA_SOURCES" := Str("")];
    assert InitScoreColumns(t).rows[i] == r5;
    AnnotationIgnoresScoreColumns(cfg, r4, "DATA_SOURCES", Str(""), timestamp);
    AnnotationIgnoresScoreColumns(cfg, r3, "LAST_UPDATED", Str(""), timestamp);
    AnnotationIgnoresScoreColumns(cfg, r2, "DATA_QUALITY", Str("Low"), timestamp);
    AnnotationIgnoresScoreColumns(cfg, r1, "CONFIDENCE_SCORE", Float(0.0), timestamp);
    AnnotationIgnoresScoreColumns(cfg, r0, "COMPLETITUD_SCORE", Float(0.0), timestamp);
  }

  /** The loop of `annotate_dataframe`: row `i` is replaced by `f(i, row)`,
      in order. */
  method MapRows(f: (nat, Row) -> Row, source: seq<Row>) returns (rows: seq<Row>)
    ensures |rows| == |source|
    ensures forall j :: 0 <= j < |source| ==> rows[j] == f(j, source[j])
  {
    rows := [];
    var i := 0;
    while i < |source|
      invariant i <= |source| && |rows| == i
      invariant forall j :: 0 <= j < i ==> rows[j] == f(j, source[j])
    {
      rows := rows + [f(i, source[i])];
      i := i + 1;
    }
  }

  /** `annotate_dataframe`: a copy with the scoring columns initialised,
      then every row read with `df.loc` (the bools of the bool-dtype columns
      `boolColumns` as `numpy.bool_`), annotated and written back; `clock(i)`
      is the time read while annotating row `i`. */
  method AnnotateDataframe(cfg: ScoringConfig, t: Table, boolColumns: set<string>, clock: nat -> string) returns (r: Table)
    requires WellFormed(t)
    ensures WellFormed(r)
    ensures r.columns == InitScoreColumns(t).columns
    ensures |r.rows| == |t.rows|
    ensures forall i :: 0 <= i < |t.rows| ==>
      r.rows[i] == StoreRow(AnnotateRow(cfg, CrossSection(InitScoreColumns(t).rows[i], boolColumns), clock(i)))
  {
    var init := InitScoreColumns(t);
    var rows := MapRows((j: nat, row: Row) => AnnotateStored(cfg, row, boolColumns, clock(j)), init.rows);
    AnnotatedWellFormed(cfg, init, boolColumns, rows, clock);
    r := Table(init.columns, rows);
  }
}
