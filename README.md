# Lead-enrichment decision core in Dafny

This project models the deterministic decision logic of a lead-enrichment
pipeline for Spanish companies and proves properties of it. Each lead is one
row of a table, and the logic covered here validates, classifies, enriches
and scores that row:

- tax identifiers: NIF, NIE and CIF, with their MOD-23 and doubled-digit
  control characters;
- Spanish phone numbers;
- e-mail addresses (syntax, generic mailboxes, then an MX lookup);
- the commercial priority of a lead (tiers 4 to 1);
- data-quality scores (completeness, confidence, a High/Medium/Low label);
- the three batch validators that write status columns into a table;
- the tier-3 enricher, which fills only empty WEBSITE and CNAE cells;
- the format-only and registry-index CIF providers;
- the per-provider monthly rate limiter;
- the red-fill detector of the Excel reader, and the shift from Excel rows
  to table rows.

One module mirrors each source file. Shared modules:

- `Wrappers` holds `Option`.
- `Text` models the Python string operations the code relies on: `strip`,
  ASCII `upper`/`lower`, `replace` of single characters, `startswith`,
  `in`, `join` and `str(int)`.
- `Frames` models pandas cells (`None`, NaN, bool, `numpy.bool_`, int,
  float, str), rows as maps from column label to cell, and tables as a
  column list plus rows. A row read with `df.loc[idx]` holds a
  `numpy.bool_` wherever the column has bool dtype.
- `ApiBase` mirrors the provider result records.

The DNS resolver, the web search and the URL-liveness check are oracle
parameters. The YAML configuration is passed in as data, with the code's
defaults as named constants. Python's `float()` on text is an oracle too.
The clock used for LAST_UPDATED is a parameter.

The batch validators and the two tier-3 enrichment passes copy the table
(`df.copy()`) and then loop over its rows, writing cells. Each is modelled
as a method with a `while` loop over a `Table` value. The method is proved
equal to a function that states the whole result row by row. Lemmas then
state what the function does: which rows change, what they become, which
cells are never touched, and that running twice equals running once.

`process_missing_only` adds columns to the caller's DataFrame in place, so
that frame is a class `Frame` with a `table` field. The rate limiter
updates its usage dictionary in place, so it is a class `Limiter` with a
`usage` map.

## Model

| member | source | states |
|---|---|---|
| CifValidator.Normalize | src/tier1/cif_validator.py:77-86 | the result has no space, no hyphen and no lower-case letter, and is no longer than the input (what it keeps: the Normalize lemmas below) |
| CifValidator.NormalizeKeeps | src/tier1/cif_validator.py:86 | every non-separator character of the stripped input appears, upper-cased, in the result |
| CifValidator.NormalizeIgnoresCase | src/tier1/cif_validator.py:86 | lower-casing the input first changes nothing |
| CifValidator.NormalizeIgnoresPadding | src/tier1/cif_validator.py:86 | surrounding whitespace changes nothing |
| CifValidator.NormalizeDropsInnerSeparator | src/tier1/cif_validator.py:86 | a space or hyphen between two non-blank parts is dropped: normalising x + sep + y equals normalising x + y |
| CifValidator.NormalizeClean | src/tier1/cif_validator.py:86 | a non-empty input of digits and upper-case letters normalises to itself |
| CifValidator.ValidateNif | src/tier1/cif_validator.py:88-129 | type NIF, formatted id = input, no entity type; INVALID_FORMAT off-pattern; otherwise valid iff char 9 is `TRWAGMYFPDXBNJZSQVHLCKE`[int(first 8) mod 23], else INVALID_CHECKSUM; valid iff no error |
| CifValidator.ValidateNie | src/tier1/cif_validator.py:131-177 | type NIE; X/Y/Z become the leading digit 0/1/2 of the MOD-23 number; valid iff char 9 is that letter; INVALID_FORMAT / INVALID_CHECKSUM otherwise |
| CifValidator.CifControlDigit | src/tier1/cif_validator.py:206-219 | the control digit computed from the 7-digit body is a single digit |
| CifValidator.ExpectedCifControl | src/tier1/cif_validator.py:221-227 | the expected control is one character: a MOD-23 letter for N,P,Q,R,S,W, else the digit |
| CifValidator.ValidateCif | src/tier1/cif_validator.py:179-244 | type CIF; INVALID_FORMAT with no entity type off-pattern; otherwise entity type = table lookup (checksum or not), valid iff char 9 equals the expected control, else INVALID_CHECKSUM |
| CifValidator.Validate | src/tier1/cif_validator.py:246-280 | valid iff no error; EMPTY_INPUT iff the input is blank; otherwise the formatted id is the normalised text, and the type is NIE, NIF or CIF exactly when the normalised text matches that pattern; valid iff the control character is correct for the detected type; never INVALID_FORMAT; an entity type only for CIFs |
| CifValidator.Dispatch | src/tier1/cif_validator.py:264-280 | the type is NIE, NIF or CIF exactly when the text matches that pattern, and the result is then that validator's; valid iff the control character is correct; UNKNOWN iff UNKNOWN_FORMAT |
| CifValidator.PatternsDisjoint | src/tier1/cif_validator.py:70-74 | no string matches two of the default NIE, NIF and CIF patterns |
| CifValidator.EmptyInputResult | src/tier1/cif_validator.py:255-262 | blank input gives (false, "", UNKNOWN, None, EMPTY_INPUT) |
| CifValidator.UnknownFormatKeepsNormalized | src/tier1/cif_validator.py:273-280 | matching no pattern gives UNKNOWN_FORMAT with the normalised text as formatted id |
| CifValidator.NifControlLetterUnique | src/tier1/cif_validator.py:108-122 | for 8 digits, exactly one control letter is valid: the MOD-23 one |
| CifValidator.CifDigitControlCompletesSum | src/tier1/cif_validator.py:208-230 | a digit-type CIF is valid iff body total plus control digit is a multiple of 10 |
| CifValidator.ControlDigitCompletes | src/tier1/cif_validator.py:217-219 | `(10 - total % 10) % 10` is the one digit that brings the total to a multiple of ten |
| CifValidator.LetterControlTypesAlwaysFail | src/tier1/cif_validator.py:188-237 | under the default pattern, N, P, Q, R, S, W CIFs always end in INVALID_CHECKSUM |
| CifValidator.EntityTypeOnlyForCif | src/tier1/cif_validator.py:204-244 | the entity type is reported exactly for CIF results, valid or not |
| CifValidator.UnlistedOrganisationLetters | src/tier1/cif_validator.py:33-204 | I, K, L, M, O and T map to "Unknown" |
| CifValidator.NormalizeIdempotent | src/tier1/cif_validator.py:86 | normalising twice equals normalising once when the result has no whitespace at its ends |
| CifValidator.NormalizeNotIdempotent | src/tier1/cif_validator.py:86 | "a\t-" normalises to "A\t" and then to "A" |
| CifValidator.RevalidateValidIsStable | src/tier1/cif_validator.py:246-280 | revalidating the nine-character formatted id of a valid result returns the same result |
| CifValidator.RevalidateTrailingNewline | src/tier1/cif_validator.py:86-270 | "37277293C\n-" is a valid NIF whose formatted id "37277293C\n" revalidates to a different formatted id |
| CifValidator.ExampleNif | src/tier1/cif_validator.py:108-129 | 37277293C is a valid NIF |
| CifValidator.ExampleNie | src/tier1/cif_validator.py:150-177 | X3263669S is a valid NIE |
| CifValidator.ExampleCif | src/tier1/cif_validator.py:199-244 | A12345674 and B12345674 are valid with their legal forms; B12345675 fails the checksum |
| PhoneValidator.StripCountryPrefix | src/tier1/phone_validator.py:60-66 | the result is a suffix of the input: three characters shorter after "+34", four after "0034", nine digits from an 11-character "34…"; any other input is returned unchanged |
| PhoneValidator.Normalize | src/tier1/phone_validator.py:48-68 | the result is the separator-free input with the country prefix removed, and contains no whitespace, hyphen, dot or parenthesis |
| PhoneValidator.DetectType | src/tier1/phone_validator.py:70-97 | special iff the right length and a special 3-digit prefix; mobile iff the right length, a mobile first digit and no special prefix; landline iff the right length, a landline first digit and neither of the others; invalid otherwise |
| PhoneValidator.FormatInternational | src/tier1/phone_validator.py:99-112 | starts with the prefix and a space; 9 digits give the 3-3-3 grouping length; otherwise prefix, space, digits |
| PhoneValidator.Validate | src/tier1/phone_validator.py:114-175 | valid iff no error iff type not invalid; EMPTY_INPUT iff blank, with "" formatted; otherwise formatted = normalised; INVALID_CHARACTERS iff not all digits; INVALID_LENGTH (expected, got) iff all digits of the wrong length; INVALID_PREFIX iff the right length and no type; a valid result has the detected type and the international format |
| PhoneValidator.NormalizeDigits | src/tier1/phone_validator.py:58-68 | digits without a country prefix normalise to themselves |
| PhoneValidator.FormatInternationalGroups | src/tier1/phone_validator.py:112 | nine digits format as prefix + " " + d[0:3] + " " + d[3:6] + " " + d[6:9] |
| PhoneValidator.RevalidateValid | src/tier1/phone_validator.py:58-97 | under prefix sets that cannot start a country prefix, revalidating a valid formatted number gives the same result |
| PhoneValidator.DefaultConfigSafe | src/tier1/phone_validator.py:42-46 | the default prefix sets satisfy that condition |
| PhoneValidator.SpecialBeforeLandline | src/tier1/phone_validator.py:85-97 | 900123456 is special, 912345678 landline, 612345678 mobile |
| PhoneValidator.LowDigitsInvalidPrefix | src/tier1/phone_validator.py:85-97 | under the defaults nine digits starting with 0 to 5 are invalid |
| PhoneValidator.ValidateByNormalize | src/tier1/phone_validator.py:123-175 | two non-blank inputs with the same normalised form validate alike |
| PhoneValidator.SeparatorInsensitive | src/tier1/phone_validator.py:58 | inserting a separator anywhere in a non-blank number changes nothing |
| PhoneValidator.PrefixSpellings | src/tier1/phone_validator.py:60-66 | "+34", "0034" and "34" before nine digits are all removed and validate like the bare digits |
| PhoneValidator.MobileExample | src/tier1/phone_validator.py:170-175 | 612345678 is a valid mobile formatted "+34 612 345 678" |
| PhoneValidator.ShortNumber | src/tier1/phone_validator.py:146-153 | "12345" gives "INVALID_LENGTH (expected 9, got 5)" |
| PhoneValidator.EmptyInputResult | src/tier1/phone_validator.py:123-130 | blank input gives (false, "", invalid, "", EMPTY_INPUT) |
| PriorityEngine.ToFloat | src/core/priority_engine.py:53-60 | ints and floats convert exactly; text goes through `float()` |
| PriorityEngine.Consumption | src/core/priority_engine.py:53-60 | a missing, NaN or "" consumption is absent; ints, floats and bools convert exactly; other text goes through `float()` |
| PriorityEngine.CheckServices | src/core/priority_engine.py:20-38 | true iff every required service is present |
| PriorityEngine.AnyConditionHolds | src/core/priority_engine.py:92-105 | true iff some tier-3 condition holds |
| PriorityEngine.Tier4 | src/core/priority_engine.py:40-68 | tier 4 iff a parsed consumption is not below the minimum (+inf when unset) and every required service is present |
| PriorityEngine.Tier3 | src/core/priority_engine.py:70-105 | tier 3 iff a parsed consumption satisfies some listed condition; a single mapping is its only condition; an empty list never qualifies |
| PriorityEngine.Tier2 | src/core/priority_engine.py:107-129 | tier 2 iff the consumption is finite and lies between the bounds, each bound defaulting on its own (70 for the minimum, 99 for the maximum) |
| PriorityEngine.CalculatePriority | src/core/priority_engine.py:131-148 | 1..4; 4 iff tier 4; 3 iff tier 3 and not 4; 2 iff tier 2 and neither 4 nor 3 |
| PriorityEngine.CalculatePriorities | src/core/priority_engine.py:150-162 | one priority per row, equal to that row's priority |
| PriorityEngine.NoConsumptionIsPriority1 | src/core/priority_engine.py:53-127 | no usable consumption gives priority 1 |
| PriorityEngine.MissingConsumptionIsPriority1 | src/core/priority_engine.py:53-60 | a missing, NaN or empty consumption cell gives priority 1 |
| PriorityEngine.ConditionUpwardClosed | src/core/priority_engine.py:96-97 | a condition that holds for a consumption holds for any larger one |
| PriorityEngine.Tier3UpwardClosed | src/core/priority_engine.py:92-105 | tier 3 is upward closed in consumption |
| PriorityEngine.PriorityNotMonotone | src/core/priority_engine.py:107-148 | under the defaults 80 MWh gives 2 but 150 MWh gives 1 |
| PriorityEngine.NanTextReachesTier4 | src/core/priority_engine.py:53-68 | text that `float()` reads as NaN or +inf reaches tier 4 |
| PriorityEngine.ServicePresenceExamples | src/core/priority_engine.py:30-38 | 0 and False are absent, "NO" is present, a missing column is absent |
| ScoringEngine.ParseConfig | src/core/scoring_engine.py:49-73 | each key present in its section is taken as given and each absent key takes its default (80, 50, 70, 40, no fields and empty weight maps); a missing scoring section gives the default configuration |
| ScoringEngine.CalculateCompleteness | src/core/scoring_engine.py:121-146 | the loop's score equals valid weight over total weight as a percentage, 0 for zero total |
| ScoringEngine.IsValidField | src/core/scoring_engine.py:92-119 | an empty field is never valid; without a `{field}_VALID` column, valid iff not empty; a boolean flag decides for a non-empty field; a string flag counts as true iff it reads "true", "1" or "yes" in any case; a null, NaN, numeric or `numpy.bool_` flag is ignored |
| ScoringEngine.Completeness | src/core/scoring_engine.py:121-146 | 0 for zero total weight; with non-negative weights a percentage in [0, 100] |
| ScoringEngine.FilledWithinTotal | src/core/scoring_engine.py:134-141 | with non-negative weights the valid weight lies between 0 and the total |
| ScoringEngine.CompletenessAllValid | src/core/scoring_engine.py:134-146 | every field valid gives 100 |
| ScoringEngine.CompletenessNoneValid | src/core/scoring_engine.py:134-146 | no field valid gives 0 |
| ScoringEngine.CompletenessHalf | src/core/scoring_engine.py:134-146 | two equal weights with one valid give 50 |
| ScoringEngine.PenaltyLowersConfidence | src/core/scoring_engine.py:177-180 | an e-mail flagged with a Python `False` counts the syntax-only weight without earning it, so with non-negative weights and a positive syntax-only weight the confidence is below 100 |
| ScoringEngine.ConfidenceAllOrNothing | src/core/scoring_engine.py:163-216 | without an e-mail explicitly flagged invalid, confidence is 0 or 100 |
| ScoringEngine.Confidence | src/core/scoring_engine.py:148-216 | 0 when no weight is counted; with non-negative source weights a percentage in [0, 100] |
| ScoringEngine.ContributionsWithin | src/core/scoring_engine.py:163-210 | with non-negative source weights each source earns between 0 and what it counts, so in total too |
| ScoringEngine.CnaeAlwaysCounts | src/core/scoring_engine.py:201-210 | a non-empty CNAE earns and counts the official weight for "official_register" or a "chamber" source, else the inferred weight |
| ScoringEngine.MediumCriteria | src/core/scoring_engine.py:256-270 | the number of Medium criteria: 0 iff none holds, 4 iff all hold, at least 2 iff some pair holds |
| ScoringEngine.AssignDataQuality | src/core/scoring_engine.py:218-276 | High iff the High criteria hold; Medium iff not High and at least two Medium criteria; else Low |
| ScoringEngine.QualityIgnoresScores | src/core/scoring_engine.py:218-276 | the label does not depend on the completeness and confidence arguments |
| ScoringEngine.MediumNeedsCifOrEmail | src/core/scoring_engine.py:248-273 | a Medium row has CIF_FORMAT_OK or an '@' in EMAIL |
| ScoringEngine.NanCountsAsRealEmail | src/core/scoring_engine.py:230-245 | a NaN EMAIL_SPECIFIC reads "nan" and makes the row High |
| ScoringEngine.SummaryParts | src/core/scoring_engine.py:287-311 | at most four non-empty entries |
| ScoringEngine.SourcesSummary | src/core/scoring_engine.py:313 | the summary is "" iff there are no entries, and a single entry is the whole summary |
| ScoringEngine.SummaryStartsWithEmail | src/core/scoring_engine.py:289-294 | with an e-mail and a level the summary starts "email:" |
| ScoringEngine.SummaryEntries | src/core/scoring_engine.py:287-311 | "email:"+level is an entry iff EMAIL is non-empty and the level truthy; "phone:normalized" iff TELEFONO is non-empty and PHONE_VALID truthy; "website:"+source and "cnae:"+source iff that source is truthy |
| ScoringEngine.SummaryOrder | src/core/scoring_engine.py:287-311 | the entries' kinds (email, phone, website, cnae) strictly increase, so each appears at most once and in that order |
| ScoringEngine.SummaryContainsEntries | src/core/scoring_engine.py:313 | every entry occurs in the joined summary |
| ScoringEngine.SummaryExample | src/core/scoring_engine.py:278-313 | an e-mail at level "mx", no phone, website source "search" and CNAE source "chamber" give "email:mx; website:search; cnae:chamber" |
| ScoringEngine.ScoresOf | src/core/scoring_engine.py:324-327 | completeness and confidence are those of the row, the label is computed from them and the row, and the sources are the row's summary |
| ScoringEngine.WriteScores | src/core/scoring_engine.py:330-335 | adds exactly the five scoring columns with the computed values and changes no other cell |
| ScoringEngine.WriteScoresOverwrites | src/core/scoring_engine.py:330-335 | a previous value in a scoring column is irrelevant |
| ScoringEngine.AnnotateRowCells | src/core/scoring_engine.py:315-336 | an annotated row gains the five scoring columns holding the completeness, the confidence, the label's name, the timestamp and the summary, and keeps every other cell |
| ScoringEngine.ConfidenceIgnoresScoreColumns | src/core/scoring_engine.py:148-216 | confidence does not read the scoring columns |
| ScoringEngine.SummaryIgnoresScoreColumns | src/core/scoring_engine.py:278-313 | the summary does not read the scoring columns |
| ScoringEngine.QualityIgnoresScoreColumns | src/core/scoring_engine.py:218-276 | the label does not read the scoring columns |
| ScoringEngine.ScoresIgnoreScoreColumns | src/core/scoring_engine.py:315-327 | when no completeness field is a scoring column, the four computed values ignore the scoring columns |
| ScoringEngine.AnnotationIgnoresScoreColumns | src/core/scoring_engine.py:315-336 | when no completeness field is a scoring column, a row's prior scoring values do not affect its annotation |
| ScoringEngine.InitScoreColumns | src/core/scoring_engine.py:351-355 | same row count, well-formedness kept, the five columns present |
| ScoringEngine.AnnotateKeepsKeys | src/core/scoring_engine.py:330-336 | a row that has the scoring columns keeps its labels |
| ScoringEngine.AnnotatedWellFormed | src/core/scoring_engine.py:358-361 | writing annotated rows back keeps the table well formed |
| ScoringEngine.InitRowAnnotatesLikeOriginal | src/core/scoring_engine.py:351-361 | initialising the scoring columns does not change any row's annotation |
| ScoringEngine.MapRows | src/core/scoring_engine.py:358-361 | the loop replaces row i by f(i, row i) for every i, keeping the row count |
| ScoringEngine.AnnotateDataframe | src/core/scoring_engine.py:338-363 | the loop yields a well-formed table with the initialised columns, the same row count, and row i = initialised row i read through `df.loc` (bools of the bool-dtype columns as `numpy.bool_`), annotated and written back |
| ScoringEngine.NumpyFlagIgnoredByIsValid | src/core/scoring_engine.py:108-119 | a `{field}_VALID` flag from a bool-dtype column, read through `df.loc`, is ignored: the field is valid iff it is not empty |
| ScoringEngine.NumpyFlagNeverPenalised | src/core/scoring_engine.py:166-180 | an EMAIL_VALID flag from a bool-dtype column, read through `df.loc`, is never penalised: a `numpy.False_` e-mail adds nothing, the confidence is 0 or 100, and a non-empty e-mail is valid |
| ScoringEngine.PythonFalseFlagPenalised | src/core/scoring_engine.py:111-112 | a non-empty e-mail with a Python `False` flag is penalised and not valid |
| Frames.CrossSection | src/core/scoring_engine.py:359 | `df.loc[idx]` keeps the labels, turns each bool of a bool-dtype column into a `numpy.bool_` and keeps every other cell; no cell changes truthiness, `== False`, NA-ness, emptiness or `str()` |
| Frames.StoreRow | src/core/scoring_engine.py:361 | writing a row back keeps the labels, stores each `numpy.bool_` as its bool and every other cell as it is |
| Frames.StoreCrossSection | src/core/scoring_engine.py:359-361 | reading a stored row and writing it straight back changes nothing |
| Frames.IsEmptyExactly | src/core/scoring_engine.py:75-90 | `_is_empty` holds exactly for None, NaN and whitespace-only strings |
| EmailValidator.LocalPart | src/validators/email_validator.py:169 | the local part is the prefix of the address before its first '@' (the whole address when there is none) |
| EmailValidator.CheckMx | src/validators/email_validator.py:101-155 | has MX iff some answer; NoAnswer and answers give no error; the four error texts for NXDOMAIN, timeout, DNS and other failures |
| EmailValidator.Classify | src/validators/email_validator.py:203-231 | INVALID_SYNTAX record off-syntax; valid iff syntax; generic iff `_is_generic_email`; generic gives the GENERIC_EMAIL record; otherwise deliverable = MX answer and error = MX error when undeliverable; deliverable implies valid, not generic, no error |
| EmailValidator.Validate | src/validators/email_validator.py:184-231 | "" gives the EMPTY_EMAIL record; otherwise the input is stripped and lower-cased and classified |
| EmailValidator.RegexHasAt | src/validators/email_validator.py:28-30 | whatever matches the address pattern contains '@' |
| EmailValidator.DomainHasNoAt | src/validators/email_validator.py:29 | a domain matching the pattern has no '@' |
| EmailValidator.ShapeDomain | src/validators/email_validator.py:223 | for a matching address, the domain is everything after the first '@' |
| EmailValidator.NormalizeIdempotent | src/validators/email_validator.py:201 | stripping and lower-casing twice equals once |
| EmailValidator.EmptyEmail | src/validators/email_validator.py:193-199 | "" gives (false, false, true, EMPTY_EMAIL) |
| EmailValidator.BlankEmailIsInvalidSyntax | src/validators/email_validator.py:193-210 | a non-empty blank address gives INVALID_SYNTAX, not EMPTY_EMAIL |
| EmailValidator.CaseInsensitive | src/validators/email_validator.py:201 | upper-casing the input changes nothing |
| EmailValidator.GenericSkipsMx | src/validators/email_validator.py:212-220 | for a generic address the MX oracle is irrelevant |
| EmailValidator.DeliverableIffMx | src/validators/email_validator.py:222-231 | a syntactically valid non-generic address is deliverable iff its domain has MX, and its error is None iff the lookup answered or gave no answer |
| EmailValidator.NoAnswerHasNoError | src/validators/email_validator.py:116-231 | a domain without MX answer gives (true, false, false, None) |
| EmailValidator.GenericLocalExamples | src/validators/email_validator.py:172-180 | "info2" and "contacto" are generic local parts |
| EmailValidator.InformationNotGeneric | src/validators/email_validator.py:176-180 | "information" is not generic |
| EmailValidator.GenericAddressExample | src/validators/email_validator.py:213-220 | "info2@x.es" gives the GENERIC_EMAIL record |
| EmailValidator.ShortTldRejected | src/validators/email_validator.py:29 | "a@b.c" fails the pattern (top-level domain shorter than 2) |
| CifBatchValidator.WithStatusColumns | src/validators/cif_batch_validator.py:42-48 | adds only the three status columns, keeps the others, and changes nothing when all three exist |
| CifBatchValidator.Revalidate | src/validators/cif_batch_validator.py:87-94 | valid = the CIF validator's verdict; valid iff reason "ok"; an invalid result gives its error code, or "invalid" without one |
| CifBatchValidator.Record | src/validators/cif_batch_validator.py:90-95 | writes CIF_VALID, CIF_REASON and CIF_RECHECKED=True and nothing else |
| CifBatchValidator.RecheckRow | src/validators/cif_batch_validator.py:80-95 | a row keeps its labels and every non-status cell |
| CifBatchValidator.RevalidateCifs | src/validators/cif_batch_validator.py:19-98 | the loop's table equals the specification of the whole pass |
| CifBatchValidator.Revalidated | src/validators/cif_batch_validator.py:40-98 | the pass keeps the row count and ends with the status columns added |
| CifBatchValidator.InactiveOnlyInitializes | src/validators/cif_batch_validator.py:43-61 | a missing CIF column or disabled revalidation only initialises absent status columns to None, "", False |
| CifBatchValidator.ValidFlagUntouched | src/validators/cif_batch_validator.py:67-69 | a row whose CIF_VALID is neither False nor null is untouched |
| CifBatchValidator.RevalidatedRow | src/validators/cif_batch_validator.py:67-95 | a selected row with a non-blank CIF becomes the row with the validator's verdict, "ok" or the error code, and CIF_RECHECKED True |
| CifBatchValidator.BlankIdentifierSkipped | src/validators/cif_batch_validator.py:81-84 | a blank CIF is skipped and never marked rechecked |
| CifBatchValidator.OtherCellsUnchanged | src/validators/cif_batch_validator.py:80-95 | no cell outside the status columns changes |
| CifBatchValidator.RevalidatedWellFormed | src/validators/cif_batch_validator.py:40-95 | a well-formed table stays well formed |
| CifBatchValidator.RevalidateIdempotent | src/validators/cif_batch_validator.py:40-95 | running the pass twice equals running it once |
| CifBatchValidator.RecheckedExactly | src/validators/cif_batch_validator.py:47-95 | with the column freshly added, CIF_RECHECKED is True exactly for selected rows with a non-blank CIF |
| PhoneBatchValidator.WithStatusColumns | src/validators/phone_batch_validator.py:44-50 | adds only the three status columns, keeps the others, and changes nothing when all three exist |
| PhoneBatchValidator.Check | src/validators/phone_batch_validator.py:66-85 | a null or blank cell gives (False, "empty", ""); otherwise valid = the validator's verdict on `str(cell)`; valid gives "ok" and the international format; invalid gives the error code ("invalid" without one) and the formatted phone; valid iff reason "ok" |
| PhoneBatchValidator.Record | src/validators/phone_batch_validator.py:70-85 | writes the three status cells and nothing else |
| PhoneBatchValidator.ValidateAllPhones | src/validators/phone_batch_validator.py:19-88 | the loop's table equals the specification of the whole pass |
| PhoneBatchValidator.Validated | src/validators/phone_batch_validator.py:42-88 | the pass keeps the row count and ends with the status columns added |
| PhoneBatchValidator.MissingColumnOnlyInitializes | src/validators/phone_batch_validator.py:44-57 | with no phone column only absent status columns are added as False, "", "" |
| PhoneBatchValidator.ProcessedRow | src/validators/phone_batch_validator.py:65-85 | every row becomes the row with its phone cell's outcome written: (False, "empty", "") for a blank cell, else the validator's flag, "ok" or the error code, and the international format when valid, else the formatted phone |
| PhoneBatchValidator.OtherCellsUnchanged | src/validators/phone_batch_validator.py:65-85 | no cell outside the status columns changes |
| PhoneBatchValidator.ValidatedWellFormed | src/validators/phone_batch_validator.py:42-85 | a well-formed table stays well formed |
| PhoneBatchValidator.ValidateIdempotent | src/validators/phone_batch_validator.py:42-85 | running the pass twice equals running it once |
| PhoneBatchValidator.BlankExamples | src/validators/phone_batch_validator.py:69-73 | None and "" give (False, "empty", "") |
| PhoneBatchValidator.MobileExample | src/validators/phone_batch_validator.py:78-81 | "612345678" gives (True, "ok", "+34 612 345 678") |
| PhoneBatchValidator.FloatPhoneRejected | src/validators/phone_batch_validator.py:76 | a nine-digit phone stored as a float reads "NNNNNNNNN.0" and is rejected as ten digits |
| EmailBatchValidator.WithStatusColumns | src/validators/email_batch_validator.py:45-51 | adds only the three status columns, keeps the others, and changes nothing when all three exist |
| EmailBatchValidator.Check | src/validators/email_batch_validator.py:72-100 | null or blank gives (False, "empty", "none"); invalid gives (False, the error or "invalid_syntax", "none"); generic gives (True, "generic_email", "syntax"); deliverable gives (True, "ok", "mx"); otherwise (True, the error or "no_mx", "syntax") |
| EmailBatchValidator.Record | src/validators/email_batch_validator.py:76-100 | writes the three status cells and nothing else |
| EmailBatchValidator.ValidateAllEmails | src/validators/email_batch_validator.py:19-103 | the loop's table equals the specification of the whole pass |
| EmailBatchValidator.Validated | src/validators/email_batch_validator.py:43-103 | the pass keeps the row count and ends with the status columns added |
| EmailBatchValidator.MissingColumnOnlyInitializes | src/validators/email_batch_validator.py:45-58 | with no e-mail column only absent status columns are added as False, "", "none" |
| EmailBatchValidator.ProcessedRow | src/validators/email_batch_validator.py:71-100 | every row becomes the row with its e-mail cell's outcome written: (False, "empty", "none") for a blank cell, else the validator's flag and level "mx" iff deliverable |
| EmailBatchValidator.OtherCellsUnchanged | src/validators/email_batch_validator.py:71-100 | no cell outside the status columns changes |
| EmailBatchValidator.ValidatedWellFormed | src/validators/email_batch_validator.py:43-100 | a well-formed table stays well formed |
| EmailBatchValidator.MxSettingsIgnored | src/validators/email_batch_validator.py:61-66 | `mx_check.enabled` does not change the result |
| EmailBatchValidator.ValidateIdempotent | src/validators/email_batch_validator.py:43-100 | running the pass twice equals running it once |
| EmailBatchValidator.BlankExamples | src/validators/email_batch_validator.py:75-79 | None and "" give (False, "empty", "none") |
| EmailBatchValidator.NoAtIsInvalidSyntax | src/validators/email_batch_validator.py:84-87 | a non-blank address without '@' gives (False, "INVALID_SYNTAX", "none") |
| Tier3Enricher.Render | src/enrichers/tier3_enricher.py:281-284 | a literal renders as itself, `{razon_social}` as `str(row.get("RAZON_SOCIAL", ""))` and `{cif}` as `str(row.get("CIF", ""))`; an empty template renders "" |
| Tier3Enricher.RenderAppend | src/enrichers/tier3_enricher.py:281-284 | a template renders piece by piece: the rendering of a + b is that of a followed by that of b |
| Tier3Enricher.LiteralsIgnoreRow | src/enrichers/tier3_enricher.py:281-284 | a template without placeholders renders the same for every row |
| Tier3Enricher.DefaultWebsiteQuery | src/enrichers/tier3_enricher.py:275-284 | the default query is the company name, a space and the CIF |
| Tier3Enricher.NormalizeUrl | src/enrichers/tier3_enricher.py:205-219 | empty iff the stripped input is empty; an http:// or https:// input is kept stripped; anything else becomes "https://" + the stripped text |
| Tier3Enricher.NormalizeUrlIdempotent | src/enrichers/tier3_enricher.py:205-219 | normalising twice equals once |
| Tier3Enricher.IsBlacklisted | src/enrichers/tier3_enricher.py:221-242 | false for an empty blacklist; otherwise true iff some lower-cased entry is a substring of the lower-cased host of the normalised URL |
| Tier3Enricher.EmptyEntryBlacklistsAll | src/enrichers/tier3_enricher.py:234-241 | an empty entry blacklists exactly the URLs whose host `urlparse` accepts |
| Tier3Enricher.DropTabsAndNewlines | src/enrichers/tier3_enricher.py:235 | no tab, carriage return or newline remains, and a text without them is kept |
| Tier3Enricher.Netloc | src/enrichers/tier3_enricher.py:235-236 | a host is returned only when its '[' and ']' are both present or both absent, and it holds no tab, newline or '/' |
| Tier3Enricher.AuthorityOfHost | src/enrichers/tier3_enricher.py:235 | a text without '/', '?' or '#' is all host |
| Tier3Enricher.UnbalancedBracketNeverBlacklisted | src/enrichers/tier3_enricher.py:234-241 | "https://[" + host, with no ']' in the host, is never blacklisted: `urlparse` raises and the exception is swallowed |
| Tier3Enricher.Timeout | src/enrichers/tier3_enricher.py:276 | the timeout is `min(http_timeout, 5.0)` |
| Tier3Enricher.FoundWebsite | src/enrichers/tier3_enricher.py:281-303 | a URL is stored iff the query is non-empty, search answers, the URL is not blacklisted and is alive; the stored value is the normalised URL |
| Tier3Enricher.WebsiteStep | src/enrichers/tier3_enricher.py:278-306 | a filled WEBSITE leaves the row unchanged; only WEBSITE and WEBSITE_SOURCE can change |
| Tier3Enricher.EnrichWebsiteRow | src/enrichers/tier3_enricher.py:278-306 | one pass of the loop body leaves the row exactly as the row step specifies: filled only when WEBSITE is empty and a live, non-blacklisted URL is found |
| Tier3Enricher.EnrichWebsite | src/enrichers/tier3_enricher.py:244-308 | the loop's table equals the specification of the pass |
| Tier3Enricher.WebsiteEnriched | src/enrichers/tier3_enricher.py:256-308 | the website pass keeps the row count and ends with WEBSITE_SOURCE added |
| Tier3Enricher.WebsiteFilledRowUntouched | src/enrichers/tier3_enricher.py:266-278 | a row with a filled WEBSITE only gains WEBSITE_SOURCE = None when absent |
| Tier3Enricher.WebsiteEmptyRow | src/enrichers/tier3_enricher.py:281-303 | an empty WEBSITE gets the normalised URL and source "search" when found, else stays |
| Tier3Enricher.WebsiteDisabled | src/enrichers/tier3_enricher.py:256-263 | a disabled section only adds WEBSITE_SOURCE |
| Tier3Enricher.WebsiteSearchOnlyForEmptyRows | src/enrichers/tier3_enricher.py:266-303 | the clients' answers matter only for rows whose WEBSITE is empty |
| Tier3Enricher.FoundCnae | src/enrichers/tier3_enricher.py:346-363 | a code is stored iff the query is non-empty, search answers, and the stripped answer is 4 or 5 digits; the stored value is that code |
| Tier3Enricher.CnaeStep | src/enrichers/tier3_enricher.py:343-366 | a filled CNAE leaves the row unchanged; only CNAE and CNAE_SOURCE can change |
| Tier3Enricher.EnrichCnaeRow | src/enrichers/tier3_enricher.py:343-366 | one pass of the loop body leaves the row exactly as the row step specifies: filled only when CNAE is empty and a well-formed code is found |
| Tier3Enricher.EnrichCnae | src/enrichers/tier3_enricher.py:310-368 | the loop's table equals the specification of the pass |
| Tier3Enricher.CnaeEnriched | src/enrichers/tier3_enricher.py:322-368 | the CNAE pass keeps the row count and ends with CNAE_SOURCE added |
| Tier3Enricher.CnaeFilledRowUntouched | src/enrichers/tier3_enricher.py:332-343 | a row with a filled CNAE only gains CNAE_SOURCE = None when absent |
| Tier3Enricher.CnaeEmptyRow | src/enrichers/tier3_enricher.py:343-363 | an empty CNAE either stays or gets a 4-5 digit code with source "search" |
| Tier3Enricher.CnaeDisabled | src/enrichers/tier3_enricher.py:322-329 | a disabled section only adds CNAE_SOURCE |
| Tier3Enricher.Frame.constructor | src/enrichers/tier3_enricher.py:370-389 | the caller's frame holds the given table |
| Tier3Enricher.WithTargetColumns | src/enrichers/tier3_enricher.py:390-393 | same row count; WEBSITE and CNAE present afterwards; well-formedness kept |
| Tier3Enricher.ProcessMissingOnly | src/enrichers/tier3_enricher.py:370-401 | the caller's frame gains WEBSITE and CNAE (None) where absent; the result is the website pass followed by the CNAE pass |
| Tier3Enricher.NeverOverwrites | src/enrichers/tier3_enricher.py:370-401 | a filled WEBSITE or CNAE keeps its value |
| Tier3Enricher.OtherCellsUnchanged | src/enrichers/tier3_enricher.py:370-401 | only WEBSITE, WEBSITE_SOURCE, CNAE and CNAE_SOURCE can change |
| RegexCifValidator.Validate | src/api_manager/validators/cif/regex_validator.py:9-31 | valid iff the stripped, upper-cased input matches `^[A-HJNP-SUVW]\d{7}[0-9A-J]$`; never in the registry; no name or state; source "regex"; extra holds the normalised text |
| Text.UpperStripped | src/api_manager/validators/cif/regex_validator.py:22 | the stripped input with every character upper-cased, so no lower-case letter remains |
| RegexCifValidator.NormalizeIdempotent | src/api_manager/validators/cif/regex_validator.py:22 | normalising twice equals once |
| RegexCifValidator.CaseInsensitive | src/api_manager/validators/cif/regex_validator.py:22 | lower-casing the input changes nothing |
| RegexCifValidator.InnerSpaceInvalid | src/api_manager/validators/cif/regex_validator.py:22-23 | an inner space survives normalisation and makes the value invalid |
| RegexCifValidator.ValidHasNineChars | src/api_manager/validators/cif/regex_validator.py:9-23 | a valid CIF normalises to nine characters that start with an organisation letter |
| RegexCifValidator.PaddedLowerCaseExample | src/api_manager/validators/cif/regex_validator.py:22-23 | "  b12345678  " normalises to "B12345678" and is valid |
| RegexCifValidator.RejectedExamples | src/api_manager/validators/cif/regex_validator.py:9 | "12345678", "X12345678", "B1234567", "B123456789" and "B1234567X" are invalid |
| BormeCifValidator.Validate | src/api_manager/validators/cif/borme_validator.py:24-46 | valid = exists on every path; valid iff a non-empty entry is stored under the normalised key; a miss has no name and state "UNKNOWN"; a hit reports the stored name and state, "UNKNOWN" when absent; source "borme" |
| BormeCifValidator.IndexOrEmpty | src/api_manager/validators/cif/borme_validator.py:22 | a missing index becomes the empty index, a given index is used as is |
| BormeCifValidator.EmptyIndexRejectsAll | src/api_manager/validators/cif/borme_validator.py:22-35 | with the default empty index every CIF is invalid |
| BormeCifValidator.LookupIgnoresCase | src/api_manager/validators/cif/borme_validator.py:25 | lower-casing the input changes nothing |
| BormeCifValidator.LookupIgnoresPadding | src/api_manager/validators/cif/borme_validator.py:25 | surrounding whitespace changes nothing |
| BormeCifValidator.OtherEntriesIrrelevant | src/api_manager/validators/cif/borme_validator.py:26 | only the entry under the normalised key matters |
| BormeCifValidator.RegisteredIsFound | src/api_manager/validators/cif/borme_validator.py:37-46 | a CIF registered with a name and no state is found and reported, with state "UNKNOWN" |
| RateLimiter.RemainingOf | src/api_manager/utils/rate_limiter.py:72-76 | never negative; the quota minus usage while positive |
| RateLimiter.UsageIn | src/api_manager/utils/rate_limiter.py:67-70 | the stored count, or 0 for a provider never counted |
| RateLimiter.Limiter.constructor | src/api_manager/utils/rate_limiter.py:29-47 | the limiter starts from the loaded usage map |
| RateLimiter.AlertFor | src/api_manager/utils/rate_limiter.py:85-101 | critical iff used ≥ 0.95·max(limit, 1); warning iff below that and at least threshold·max(limit, 1) |
| RateLimiter.Limiter.GetUsage | src/api_manager/utils/rate_limiter.py:67-70 | 0 for a provider never counted |
| RateLimiter.Limiter.GetRemaining | src/api_manager/utils/rate_limiter.py:72-76 | never negative |
| RateLimiter.Limiter.CheckLimit | src/api_manager/utils/rate_limiter.py:78-106 | true iff usage + 1 ≤ the monthly limit, i.e. iff at least one call remains |
| RateLimiter.Limiter.Increment | src/api_manager/utils/rate_limiter.py:61-65 | raises one provider's usage by `count` and leaves every other provider unchanged |
| RateLimiter.Limiter.GuardedCall | src/api_manager/utils/rate_limiter.py:61-106 | increments only when `check_limit` allows it; a usage within its limit stays within it |
| RateLimiter.GuardedCallsStayWithinLimits | src/api_manager/utils/rate_limiter.py:61-106 | after any sequence of guarded calls no provider exceeds its limit |
| RateLimiter.GuardedCallsCountAtMostCalls | src/api_manager/utils/rate_limiter.py:61-65 | guarded calls never lower a counter and raise it by at most one per call |
| RateLimiter.RefusalIsCritical | src/api_manager/utils/rate_limiter.py:85-106 | with a positive quota a refused call is logged as critical |
| RateLimiter.ZeroQuotaRefusesSilently | src/api_manager/utils/rate_limiter.py:85-106 | a zero quota refuses an unused provider without a critical alert |
| ExcelProcessor.ParseHexPair | src/core/excel_processor.py:43-45 | `int(t, 16)` on two characters: two hex digits give their value, no digit gives an error |
| ExcelProcessor.IsRedColor | src/core/excel_processor.py:16-68 | None and other colours are not red; a tuple is red iff r > 150, r > g+50, r > b+50; strings and `.rgb` objects are judged on their cleaned hex |
| ExcelProcessor.CleanHex | src/core/excel_processor.py:37-40 | the cleaned value is no longer than the input and contains no '#' and no lower-case letter |
| ExcelProcessor.CleanHexDropsAlpha | src/core/excel_processor.py:37-40 | an eight-character value without '#' loses its first two characters and is upper-cased |
| ExcelProcessor.CleanHexUpperCases | src/core/excel_processor.py:37-41 | a value without '#' whose length is not eight is upper-cased and otherwise kept |
| ExcelProcessor.CleanHexIgnoresHash | src/core/excel_processor.py:37 | a leading '#' is removed before anything else |
| ExcelProcessor.HexIsRed | src/core/excel_processor.py:35-48 | red only when the cleaned value has six characters |
| ExcelProcessor.ByteHexRoundTrip | src/core/excel_processor.py:43-45 | a byte printed as two hex digits parses back to itself |
| ExcelProcessor.HexAgreesWithTuple | src/core/excel_processor.py:29-48 | "RRGGBB" is red iff the triple (r, g, b) is |
| ExcelProcessor.HashIgnored | src/core/excel_processor.py:37 | a leading '#' changes nothing |
| ExcelProcessor.CaseIgnored | src/core/excel_processor.py:37 | lower-case hex is judged like upper-case |
| ExcelProcessor.AlphaIgnored | src/core/excel_processor.py:38-40 | the alpha byte of an ARGB value is ignored |
| ExcelProcessor.WrongLengthNotRed | src/core/excel_processor.py:41-68 | a cleaned value whose length is not six is never red |
| ExcelProcessor.RedExamples | src/core/excel_processor.py:35-48 | "FFFF0000" and "#FF0000" are red |
| ExcelProcessor.YellowIsNotRed | src/core/excel_processor.py:35-48 | "FFFF00" is not red |
| ExcelProcessor.RedTableRowsExact | src/core/excel_processor.py:158 | every marked table row is an Excel row minus 2, and every Excel row from 2 on is marked |
| ExcelProcessor.RedTableRows | src/core/excel_processor.py:158 | at most one table row per red Excel row |
| ExcelProcessor.RedRowFlags | src/core/excel_processor.py:158-160 | `_IS_RED_ROW` is true exactly for table rows i with Excel row i + 2 red |

## Left out

- Configuration files: YAML loading, and the fallback on a missing file, are not modelled. Rules are passed as data, and the code's defaults are named constants.
- Network and clocks: the DNS resolver, the search client, the HTTP liveness check, time-outs and `datetime.now` are parameters or oracles. An oracle that raises is modelled as one answering nothing, since the source catches those exceptions.
- Logging and the JSON persistence of the rate limiter (`_load`, `_save`): the limiter starts from a given usage map.
- Excel workbook reading and writing (`_detect_red_rows`, `read_excel`, `write_excel`): only the colour test and the row shift are modelled.
- `round(…, 2)` in the scoring engine: scores are exact reals.
- Unicode: case mapping is ASCII, `\d` and `isdigit` accept ASCII digits only, and whitespace is the ASCII set plus the common Unicode spaces listed in `Text.IsSpace`.
- `str()` of a non-integral float is approximated by a positional rendering. Integral floats below 10^16 print exactly, as "N.0"; larger ones are rendered positionally, where Python switches to exponent notation ("1e+16").
- Table rows are addressed by position; `df.loc` with duplicate index labels is not modelled.
- ExcelProcessor.RedRowFlags: ignores a red Excel row that lies past the data. In the source `df.loc[red_df_indices, "_IS_RED_ROW"] = True` with a list indexer raises `KeyError` for a label outside the index (src/core/excel_processor.py:158-160), so such a row makes `read_excel` fail.
- Tier3Enricher.EnrichWebsite / EnrichCnae: require the WEBSITE / CNAE column. The source raises `KeyError` without it, and `process_missing_only` always adds it first.
- Tier3Enricher: templates hold only the `{razon_social}` and `{cif}` placeholders. Any other placeholder raises `KeyError` in the source, which is caught, and the row is skipped.
- Tier3Enricher: `urlparse` is modelled only for the URLs `_normalize_url` produces. The host is the text after "//" up to the first '/', '?' or '#', with tabs and newlines removed, and an unbalanced '[' or ']' makes it raise. Validating a bracketed host as an IPv6 address (newer Python versions raise for "[facebook.com]") is not modelled, and neither is the NFKC test of non-ASCII hosts.
- ScoringEngine.AnnotateRow: the function carries no contract of its own; its cells are stated by ScoringEngine.AnnotateRowCells.
- ExcelProcessor.CleanHex: its own contract states what the result excludes and its length; the upper-casing, the '#' removal and the alpha drop are the lemmas CleanHexUpperCases, CleanHexIgnoresHash and CleanHexDropsAlpha.
- ScoringEngine.SummaryParts / SourcesSummary: their own contracts state the shape of the summary; which entries appear, their text and their order are the lemmas SummaryEntries and SummaryOrder, and the join is SummaryContainsEntries and SummaryExample.
- ExcelProcessor.IsRedColor: RGB tuples with fewer than three elements, or with non-integer items, are not modelled. A `.rgb` attribute is given already rendered by `str()`.
- CifValidator.Normalize: its own contract states only what the result excludes and its length; what it keeps, and its insensitivity to case, padding and inner separators, are the lemmas NormalizeKeeps, NormalizeIgnoresCase, NormalizeIgnoresPadding, NormalizeDropsInnerSeparator and NormalizeClean.
- CifValidator.NormalizeIdempotent: stated only for results without whitespace at their ends. `strip()` runs before the hyphens are removed, so "a\t-" normalises to "A\t", and normalising again gives "A" (CifValidator.NormalizeNotIdempotent).
- CifValidator.RevalidateValidIsStable: stated for nine-character formatted ids. Python's `$` also matches before a final newline, so "37277293C\n-" is a valid NIF whose formatted id keeps the newline (CifValidator.RevalidateTrailingNewline).
- PhoneValidator.RevalidateValid: stated for prefix sets under which no valid number starts with "0034", or with "34" at length 11. The defaults satisfy this (PhoneValidator.DefaultConfigSafe).
- EmailBatchValidator.MxSettingsIgnored: states only that `mx_check.enabled` is ignored. `mx_check.timeout` is passed on to the DNS resolver (src/validators/email_batch_validator.py:64-67), and the MX oracle answers per domain without seeing it, so its effect is not modelled.
- Configurable patterns and entity types: the CIF validator is modelled with its default NIE, NIF and CIF patterns and its default entity-type table (`cif_config.get("entity_types", CIF_ENTITY_TYPES)`, src/tier1/cif_validator.py:67), which `EntityTypeOf` fixes.
- ScoringEngine.PenaltyLowersConfidence: holds for an EMAIL_VALID flag that is a Python `False`, as in a row passed to `annotate_row` directly or an object-dtype column. The e-mail batch validator writes EMAIL_VALID as a bool-dtype column (src/validators/email_batch_validator.py:47), `annotate_dataframe` then reads `numpy.False_`, and `is False` never holds for it, so on that path the penalty never applies (ScoringEngine.NumpyFlagNeverPenalised).
- ScoringEngine.IsValidField: `isinstance(flag, bool)` is false for a `numpy.bool_`, so through `annotate_dataframe` a flag from a bool-dtype column (EMAIL_VALID, PHONE_VALID) is ignored and a non-empty field counts as valid (ScoringEngine.NumpyFlagIgnoredByIsValid).
- ScoringEngine.AnnotateDataframe: the bool-dtype columns are a parameter, since pandas dtypes are not modelled; every other numpy scalar is modelled as the Python value it equals, as no modelled code tells them apart.
- RateLimiter.Limiter.GuardedCall / AfterGuardedCalls: the providers count a call only after the request succeeds; the model takes every allowed request to succeed, which is the case that counts most.
- base.py's other records (phone discovery, company data) are not used by the modelled providers. `ApiBase` mirrors only the CIF and phone-validation results.

Behaviour worth knowing, proved as stated above:

- A blank e-mail that is not "" gives INVALID_SYNTAX, not EMPTY_EMAIL.
- A domain with no MX answer gives no error text.
- A phone stored as a float (612345678.0) is rejected as ten digits.
- `mx_check.enabled` is read into `mx_enabled` and never used.
- An empty blacklist entry blacklists every URL that `urlparse` accepts; "https://[facebook.com" is never blacklisted.
- Through `annotate_dataframe`, an e-mail flagged invalid by the e-mail batch validator is not penalised, and it counts as valid for completeness.
