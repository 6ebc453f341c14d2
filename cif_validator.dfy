/** Spanish fiscal identifiers: NIF (8 digits + letter), NIE (X/Y/Z + 7
    digits + letter) and CIF (organisation letter + 7 digits + control),
    detected by the default patterns and checked by their control character. */
module CifValidator {
  import opened Wrappers
  import opened Text

  /** MOD-23 control letters, indexed by remainder. */
  const ControlLetters: string := "TRWAGMYFPDXBNJZSQVHLCKE"

  /** Organisation letters whose CIF control is a letter rather than a digit. */
  const LetterControlTypes: string := "NPQRSW"

  datatype IdType = Cif | Nif | Nie | UnknownId
  {
    function Name(): string {
      match this
      case Cif => "CIF"
      case Nif => "NIF"
      case Nie => "NIE"
      case UnknownId => "UNKNOWN"
    }
  }

  datatype CifError = EmptyInput | InvalidFormat | InvalidChecksum | UnknownFormat
  {
    function Code(): string {
      match this
      case EmptyInput => "EMPTY_INPUT"
      case InvalidFormat => "INVALID_FORMAT"
      case InvalidChecksum => "INVALID_CHECKSUM"
      case UnknownFormat => "UNKNOWN_FORMAT"
    }
  }

  datatype CifValidationResult = CifValidationResult(
    isValid: bool,
    formattedId: string,
    idType: IdType,
    entityType: Option<string>,
    error: Option<CifError>)

  predicate IsSeparator(c: char) { c == ' ' || c == '-' }

  /** Trim, upper-case, then drop every space and hyphen. */
  function Normalize(s: string): (r: string)
    ensures |r| <= |s|
    ensures forall i :: 0 <= i < |r| ==> !IsSeparator(r[i]) && !IsLowerLetter(r[i])
  {
    var u := Upper(Strip(s));
    RemovePreserves(u, IsSeparator, c => !IsLowerLetter(c));
    Remove(u, IsSeparator)
  }

  /** A fixed-width pattern anchored with `$`: Python's `$` also accepts one
      trailing newline after the last character. */
  predicate EndAnchored(s: string, width: nat) {
    |s| == width || (|s| == width + 1 && s[width] == '\n')
  }

  /** Default NIE pattern `^[XYZ]\d{7}[A-Z]$`. */
  predicate MatchesNie(s: string) {
    EndAnchored(s, 9) && s[0] in "XYZ" && (forall i :: 1 <= i < 8 ==> IsDigit(s[i])) && IsUpperLetter(s[8])
  }

  /** Default NIF pattern `^\d{8}[A-Z]$`. */
  predicate MatchesNif(s: string) {
    EndAnchored(s, 9) && (forall i :: 0 <= i < 8 ==> IsDigit(s[i])) && IsUpperLetter(s[8])
  }

  /** Default CIF pattern `^[A-W]\d{8}$`. */
  predicate MatchesCif(s: string) {
    EndAnchored(s, 9) && 'A' <= s[0] <= 'W' && forall i :: 1 <= i < 9 ==> IsDigit(s[i])
  }

  function Mod23Letter(n: nat): char {
    ControlLetters[n % 23]
  }

  function ValidateNif(nif: string): (r: CifValidationResult)
    ensures r.idType == Nif && r.formattedId == nif && r.entityType == None
    ensures r.isValid <==> r.error == None
    ensures !MatchesNif(nif) ==> r.error == Some(InvalidFormat)
    ensures MatchesNif(nif) ==> (r.isValid <==> nif[8] == Mod23Letter(DigitsValue(nif[..8])))
    ensures MatchesNif(nif) && !r.isValid ==> r.error == Some(InvalidChecksum)
  {
    if !MatchesNif(nif) then CifValidationResult(false, nif, Nif, None, Some(InvalidFormat))
    else if nif[8] != Mod23Letter(DigitsValue(nif[..8])) then
      CifValidationResult(false, nif, Nif, None, Some(InvalidChecksum))
    else CifValidationResult(true, nif, Nif, None, None)
  }

  /** The NIE prefix letter as the leading digit of the MOD-23 number. */
  function NiePrefixDigit(c: char): char
    requires c in "XYZ"
  {
    if c == 'X' then '0' else if c == 'Y' then '1' else '2'
  }

  function NieNumber(nie: string): nat
    requires MatchesNie(nie)
  {
    DigitsValue([NiePrefixDigit(nie[0])] + nie[1..8])
  }

  function ValidateNie(nie: string): (r: CifValidationResult)
    ensures r.idType == Nie && r.formattedId == nie && r.entityType == None
    ensures r.isValid <==> r.error == None
    ensures !MatchesNie(nie) ==> r.error == Some(InvalidFormat)
    ensures MatchesNie(nie) ==> (r.isValid <==> nie[8] == Mod23Letter(NieNumber(nie)))
    ensures MatchesNie(nie) && !r.isValid ==> r.error == Some(InvalidChecksum)
  {
    if !MatchesNie(nie) then CifValidationResult(false, nie, Nie, None, Some(InvalidFormat))
    else if nie[8] != Mod23Letter(NieNumber(nie)) then
      CifValidationResult(false, nie, Nie, None, Some(InvalidChecksum))
    else CifValidationResult(true, nie, Nie, None, None)
  }

  /** Sum of the digits of `body` at indices `i`, `i + 2`, `i + 4`, ... */
  function StrideSum(body: string, i: nat): nat
    requires AllDigits(body)
    decreases |body| - i
  {
    if i >= |body| then 0 else DigitValue(body[i]) + StrideSum(body, i + 2)
  }

  /** Digit sum of a doubled digit: tens plus units. */
  function DoubledDigitSum(d: nat): nat {
    (2 * d) / 10 + (2 * d) % 10
  }

  /** Sum of the doubled-digit sums of `body` at indices `i`, `i + 2`, ... */
  function DoubledStrideSum(body: string, i: nat): nat
    requires AllDigits(body)
    decreases |body| - i
  {
    if i >= |body| then 0 else DoubledDigitSum(DigitValue(body[i])) + DoubledStrideSum(body, i + 2)
  }

  /** The CIF checksum total over the 7-digit body: plain digits at odd
      indices, doubled-digit sums at even indices. */
  function CifTotal(body: string): nat
    requires AllDigits(body)
  {
    StrideSum(body, 1) + DoubledStrideSum(body, 0)
  }

  function CifControlDigit(body: string): (d: nat)
    requires AllDigits(body)
    ensures d < 10
  {
    (10 - CifTotal(body) % 10) % 10
  }

  /** The control character a CIF must end with, as a one-character string. */
  function ExpectedCifControl(cif: string): (e: string)
    requires MatchesCif(cif)
    ensures |e| == 1
  {
    var d := CifControlDigit(cif[1..8]);
    if cif[0] in LetterControlTypes then [ControlLetters[d]] else NatText(d)
  }

  /** Organisation letter of a CIF to its legal form; "Unknown" for letters
      outside the table. */
  function EntityTypeOf(c: char): string {
    match c
    case 'A' => "Sociedad An\U{00F3}nima"
    case 'B' => "Sociedad Limitada"
    case 'C' => "Sociedad Colectiva"
    case 'D' => "Sociedad Comanditaria"
    case 'E' => "Comunidad de Bienes"
    case 'F' => "Sociedad Cooperativa"
    case 'G' => "Asociaci\U{00F3}n/Fundaci\U{00F3}n"
    case 'H' => "Comunidad de Propietarios"
    case 'J' => "Sociedad Civil"
    case 'N' => "Entidad Extranjera"
    case 'P' => "Corporaci\U{00F3}n Local"
    case 'Q' => "Organismo Aut\U{00F3}nomo"
    case 'R' => "Congregaci\U{00F3}n Religiosa"
    case 'S' => "\U{00D3}rgano de la Administraci\U{00F3}n"
    case 'U' => "Uni\U{00F3}n Temporal de Empresas"
    case 'V' => "Otros tipos no definidos"
    case 'W' => "Establecimiento permanente"
    case _ => "Unknown"
  }

  function ValidateCif(cif: string): (r: CifValidationResult)
    ensures r.idType == Cif && r.formattedId == cif
    ensures r.isValid <==> r.error == None
    ensures !MatchesCif(cif) ==> r.error == Some(InvalidFormat) && r.entityType == None
    ensures MatchesCif(cif) ==> r.entityType == Some(EntityTypeOf(cif[0]))
    ensures MatchesCif(cif) ==> (r.isValid <==> [cif[8]] == ExpectedCifControl(cif))
    ensures MatchesCif(cif) && !r.isValid ==> r.error == Some(InvalidChecksum)
  {
    if !MatchesCif(cif) then CifValidationResult(false, cif, Cif, None, Some(InvalidFormat))
    else
      var entity := EntityTypeOf(cif[0]);
      if [cif[8]] != ExpectedCifControl(cif) then
        CifValidationResult(false, cif, Cif, Some(entity), Some(InvalidChecksum))
      else CifValidationResult(true, cif, Cif, Some(entity), None)
  }

  /** The control character of `id` is the one its kind demands: the MOD-23
      letter of the eight digits (NIF) or of the prefixed seven (NIE), or
      the expected CIF control. */
  predicate ControlCorrect(id: string, t: IdType) {
    match t
    case Nif => MatchesNif(id) && id[8] == Mod23Letter(DigitsValue(id[..8]))
    case Nie => MatchesNie(id) && id[8] == Mod23Letter(NieNumber(id))
    case Cif => MatchesCif(id) && [id[8]] == ExpectedCifControl(id)
    case UnknownId => false
  }

  /** Auto-detects the identifier kind (NIE, then NIF, then CIF) and validates it. */
  function Validate(s: string): (r: CifValidationResult)
    ensures r.isValid <==> r.error == None
    ensures r.error == Some(EmptyInput) <==> Strip(s) == []
    ensures r.error != Some(InvalidFormat)
    ensures r.entityType.Some? ==> r.idType == Cif
    ensures r.idType == UnknownId <==> (r.error == Some(EmptyInput) || r.error == Some(UnknownFormat))
    ensures Strip(s) != [] ==> r.formattedId == Normalize(s)
    ensures Strip(s) != [] ==> (r.idType == Nie <==> MatchesNie(Normalize(s)))
    ensures Strip(s) != [] ==> (r.idType == Nif <==> MatchesNif(Normalize(s)))
    ensures Strip(s) != [] ==> (r.idType == Cif <==> MatchesCif(Normalize(s)))
    ensures r.isValid <==> ControlCorrect(r.formattedId, r.idType)
  {
    if Strip(s) == [] then CifValidationResult(false, "", UnknownId, None, Some(EmptyInput))
    else Dispatch(Normalize(s))
  }

  /** Pattern dispatch on a normalised identifier: the first matching
      pattern picks the validator, and no match is UNKNOWN_FORMAT. */
  function Dispatch(n: string): (r: CifValidationResult)
    ensures r.isValid <==> r.error == None
    ensures r.error != Some(InvalidFormat) && r.error != Some(EmptyInput)
    ensures r.formattedId == n
    ensures r.entityType.Some? ==> r.idType == Cif
    ensures r.idType == UnknownId <==> r.error == Some(UnknownFormat)
    ensures r.idType == Nie <==> MatchesNie(n)
    ensures r.idType == Nif <==> MatchesNif(n)
    ensures r.idType == Cif <==> MatchesCif(n)
    ensures MatchesNie(n) ==> r == ValidateNie(n)
    ensures MatchesNif(n) ==> r == ValidateNif(n)
    ensures MatchesCif(n) ==> r == ValidateCif(n)
    ensures r.isValid <==> ControlCorrect(n, r.idType)
  {
    if MatchesNie(n) then ValidateNie(n)
    else if MatchesNif(n) then ValidateNif(n)
    else if MatchesCif(n) then ValidateCif(n)
    else CifValidationResult(false, n, UnknownId, None, Some(UnknownFormat))
  }

  // ---------------------------------------------------------------------
  // Properties
  // ---------------------------------------------------------------------

  /** The three default patterns never match the same string, so at most one
      validator applies. */
  lemma PatternsDisjoint(s: string)
    ensures !(MatchesNie(s) && MatchesNif(s))
    ensures !(MatchesNie(s) && MatchesCif(s))
    ensures !(MatchesNif(s) && MatchesCif(s))
  {
  }

  /** A blank identifier gives exactly the EMPTY_INPUT record. */
  lemma EmptyInputResult(s: string)
    requires forall i :: 0 <= i < |s| ==> IsSpace(s[i])
    ensures Validate(s) == CifValidationResult(false, "", UnknownId, None, Some(EmptyInput))
  {
    StripEmptyIff(s);
  }

  /** Anything matching no pattern is UNKNOWN_FORMAT, keeping the normalised text. */
  lemma UnknownFormatKeepsNormalized(s: string)
    requires Strip(s) != []
    requires !MatchesNie(Normalize(s)) && !MatchesNif(Normalize(s)) && !MatchesCif(Normalize(s))
    ensures Validate(s).error == Some(UnknownFormat)
    ensures Validate(s).formattedId == Normalize(s)
  {
  }

  /** For 8 digits there is exactly one NIF control letter: the MOD-23 one. */
  lemma NifControlLetterUnique(digits: string, c: char)
    requires |digits| == 8 && AllDigits(digits) && IsUpperLetter(c)
    ensures ValidateNif(digits + [c]).isValid <==> c == Mod23Letter(DigitsValue(digits))
  {
    var s := digits + [c];
    assert s[..8] == digits;
    assert AllDigits(s[..8]);
  }

  /** A digit-type CIF is valid exactly when its control digit completes the
      weighted digit sum to a multiple of ten (the Luhn-style reading of the
      check). */
  lemma CifDigitControlCompletesSum(cif: string)
    requires MatchesCif(cif) && cif[0] !in LetterControlTypes
    ensures ValidateCif(cif).isValid <==> (CifTotal(cif[1..8]) + DigitValue(cif[8])) % 10 == 0
  {
    var body := cif[1..8];
    assert AllDigits(body);
    var d := CifControlDigit(body);
    assert NatText(d) == [DigitChar(d)];
    assert [cif[8]] == NatText(d) <==> DigitValue(cif[8]) == d;
    ControlDigitCompletes(CifTotal(body), DigitValue(cif[8]));
  }

  /** The digit `(10 - total % 10) % 10` is the one digit that brings the
      total to a multiple of ten. */
  lemma ControlDigitCompletes(total: int, v: nat)
    requires v < 10
    ensures (10 - total % 10) % 10 == v <==> (total + v) % 10 == 0
  {
    var m := total % 10;
    assert total == 10 * (total / 10) + m;
    assert (total + v) % 10 == (m + v) % 10;
  }

  /** With the default pattern the ninth character is a digit, while N, P, Q,
      R, S and W expect a letter: an identifier that normalises to such a CIF
      is never valid. */
  lemma LetterControlTypesAlwaysFail(s: string)
    requires MatchesCif(Normalize(s)) && Normalize(s)[0] in LetterControlTypes
    ensures Validate(s).idType == Cif
    ensures Validate(s).error == Some(InvalidChecksum)
  {
    var n := Normalize(s);
    PatternsDisjoint(n);
    assert Strip(s) != [];
    assert Validate(s) == Dispatch(n) == ValidateCif(n);
    var d := CifControlDigit(n[1..8]);
    assert !IsDigit(ControlLetters[d]);
    assert IsDigit(n[8]);
  }

  /** The legal form is reported for every pattern-matching CIF, checksum or
      not, and "Unknown" for organisation letters outside the table. */
  lemma EntityTypeOnlyForCif(s: string)
    ensures Validate(s).idType == Cif ==> Validate(s).entityType == Some(EntityTypeOf(Normalize(s)[0]))
    ensures Validate(s).idType != Cif ==> Validate(s).entityType == None
  {
    if Strip(s) != [] {
      assert Validate(s) == Dispatch(Normalize(s));
    }
  }

  lemma UnlistedOrganisationLetters(c: char)
    requires c in "IKLMOT"
    ensures EntityTypeOf(c) == "Unknown"
  {
  }

  lemma UpperFixed(s: string)
    requires forall i :: 0 <= i < |s| ==> !IsLowerLetter(s[i])
    ensures Upper(s) == s
  {
  }

  /** A normalised identifier with no whitespace at its ends normalises to itself. */
  lemma NormalizeFixedPoint(n: string)
    requires Strip(n) == n
    requires forall i :: 0 <= i < |n| ==> !IsSeparator(n[i]) && !IsLowerLetter(n[i])
    ensures Normalize(n) == n
  {
    UpperFixed(n);
    RemoveNothing(n, IsSeparator);
  }

  /** `normalize` is idempotent whenever its output does not end in
      whitespace that the removed characters used to shield. */
  lemma NormalizeIdempotent(s: string)
    requires Strip(Normalize(s)) == Normalize(s)
    ensures Normalize(Normalize(s)) == Normalize(s)
  {
    NormalizeFixedPoint(Normalize(s));
  }

  lemma TabHyphenNormalizes(s: string)
    requires s == "a\t-"
    ensures Normalize(s) == "A\t"
  {
    StripUnchanged(s);
    assert Upper(s) == "A\t-";
    assert Remove("A\t-", IsSeparator) == "A\t";
  }

  lemma TabNormalizes(s: string)
    requires s == "A\t"
    ensures Normalize(s) == "A"
  {
    assert Strip(s) == "A" by {
      assert TrimStart(s) == s;
      assert s[..1] == "A";
      assert TrimEnd(s) == TrimEnd("A");
    }
    NormalizeClean("A");
  }

  /** It is not idempotent in general: a trailing hyphen shields a tab from
      `strip()`, and once removed the tab is exposed. */
  lemma NormalizeNotIdempotent()
    ensures Normalize("a\t-") == "A\t"
    ensures Normalize(Normalize("a\t-")) == "A"
  {
    TabHyphenNormalizes("a\t-");
    TabNormalizes("A\t");
  }

  /** A nine-character valid result is a fixed point: revalidating its
      formatted identifier returns the same result. */
  lemma RevalidateValidIsStable(s: string)
    requires Validate(s).isValid && |Validate(s).formattedId| == 9
    ensures Validate(Validate(s).formattedId) == Validate(s)
  {
    var n := Normalize(s);
    assert Validate(s).formattedId == n;
    assert IsDigit(n[0]) || IsUpperLetter(n[0]);
    assert IsDigit(n[8]) || IsUpperLetter(n[8]);
    StripUnchanged(n);
    NormalizeFixedPoint(n);
  }

  /** An identifier made only of digits and capital letters is already normalised. */
  lemma NormalizeClean(s: string)
    requires s != [] && forall i :: 0 <= i < |s| ==> IsDigit(s[i]) || IsUpperLetter(s[i])
    ensures Normalize(s) == s
  {
    StripUnchanged(s);
    NormalizeFixedPoint(s);
  }

  /** Every character of the trimmed input other than a space or hyphen is
      kept, upper-cased. */
  lemma NormalizeKeeps(s: string, i: nat)
    requires i < |Strip(s)| && !IsSeparator(Strip(s)[i])
    ensures UpperChar(Strip(s)[i]) in Normalize(s)
  {
    var u := Upper(Strip(s));
    assert u[i] == UpperChar(Strip(s)[i]);
    RemoveKeeps(u, IsSeparator, i);
  }

  /** Case does not matter: lower-casing the input first changes nothing. */
  lemma NormalizeIgnoresCase(s: string)
    ensures Normalize(Lower(s)) == Normalize(s)
  {
    StripLower(s);
    UpperOfLower(Strip(s));
  }

  /** Whitespace around an identifier is trimmed away. */
  lemma NormalizeIgnoresPadding(pre: string, s: string, post: string)
    requires forall i :: 0 <= i < |pre| ==> IsSpace(pre[i])
    requires forall i :: 0 <= i < |post| ==> IsSpace(post[i])
    requires s == [] || (!IsSpace(s[0]) && !IsSpace(s[|s| - 1]))
    ensures Normalize(pre + s + post) == Normalize(s)
  {
    StripUnchanged(s);
    if s == [] {
      StripEmptyIff(pre + s + post);
    } else {
      StripPadded(pre, s, post);
    }
  }

  /** A space or hyphen inside the identifier is dropped. */
  lemma NormalizeDropsInnerSeparator(x: string, c: char, y: string)
    requires IsSeparator(c)
    requires x != [] && !IsSpace(x[0]) && y != [] && !IsSpace(y[|y| - 1])
    ensures Normalize(x + [c] + y) == Normalize(x + y)
  {
    var ux, uc, uy := Upper(x), Upper([c]), Upper(y);
    assert Remove(uc, IsSeparator) == [];
    calc {
      Normalize(x + [c] + y);
    == { StripUnchanged(x + [c] + y); }
      Remove(Upper(x + [c] + y), IsSeparator);
    == { UpperAppend(x + [c], y); UpperAppend(x, [c]); }
      Remove(ux + uc + uy, IsSeparator);
    == { RemoveAppend(ux + uc, uy, IsSeparator); RemoveAppend(ux, uc, IsSeparator); }
      Remove(ux, IsSeparator) + Remove(uy, IsSeparator);
    == { RemoveAppend(ux, uy, IsSeparator); }
      Remove(ux + uy, IsSeparator);
    == { UpperAppend(x, y); StripUnchanged(x + y); }
      Normalize(x + y);
    }
  }

  lemma NewlineHyphenNormalizes(s: string)
    requires s == "37277293C\n-"
    ensures Normalize(s) == "37277293C\n"
  {
    StripUnchanged(s);
    assert Upper(s) == s;
    assert Remove(s, IsSeparator) == Remove("37277293C\n", IsSeparator) + Remove("-", IsSeparator) by {
      assert s == "37277293C\n" + "-";
      RemoveAppend("37277293C\n", "-", IsSeparator);
    }
    RemoveNothing("37277293C\n", IsSeparator);
  }

  lemma NewlineNormalizes(s: string)
    requires s == "37277293C\n"
    ensures Normalize(s) == "37277293C"
  {
    assert Strip(s) == "37277293C" by {
      assert TrimStart(s) == s;
      assert s[..9] == "37277293C";
      assert TrimEnd(s) == TrimEnd("37277293C");
    }
    NormalizeClean("37277293C");
  }

  lemma NewlineNifValid(s: string)
    requires s == "37277293C\n" || s == "37277293C"
    ensures MatchesNif(s) && !MatchesNie(s)
    ensures ValidateNif(s).isValid
  {
    assert s[..8] == "37277293";
    DigitsOf37277293();
  }

  /** The restriction to nine characters is needed: `$` lets a trailing
      newline into the formatted identifier, and revalidation strips it. */
  lemma RevalidateTrailingNewline()
    ensures Validate("37277293C\n-").isValid
    ensures Validate("37277293C\n-").formattedId == "37277293C\n"
    ensures Validate(Validate("37277293C\n-").formattedId).formattedId == "37277293C"
  {
    NewlineHyphenNormalizes("37277293C\n-");
    NewlineNifValid("37277293C\n");
    NewlineNormalizes("37277293C\n");
  }

  lemma DigitsOf37277293()
    ensures DigitsValue("37277293") == 37277293
  {
    assert "37277293"[..7] == "3727729";
    assert "3727729"[..6] == "372772";
    assert "372772"[..5] == "37277";
    assert "37277"[..4] == "3727";
    assert "3727"[..3] == "372";
    assert "372"[..2] == "37";
    assert "37"[..1] == "3";
  }

  lemma DigitsOf03263669()
    ensures DigitsValue("03263669") == 3263669
  {
    assert "03263669"[..7] == "0326366";
    assert "0326366"[..6] == "032636";
    assert "032636"[..5] == "03263";
    assert "03263"[..4] == "0326";
    assert "0326"[..3] == "032";
    assert "032"[..2] == "03";
    assert "03"[..1] == "0";
  }

  /** An already-normalised identifier goes straight to pattern dispatch. */
  lemma ValidateClean(s: string)
    requires s != [] && forall i :: 0 <= i < |s| ==> IsDigit(s[i]) || IsUpperLetter(s[i])
    ensures Validate(s) == Dispatch(s)
  {
    NormalizeClean(s);
    StripUnchanged(s);
  }

  lemma ExampleNifParts(s: string)
    requires s == "37277293C"
    ensures forall i :: 0 <= i < |s| ==> IsDigit(s[i]) || IsUpperLetter(s[i])
    ensures !MatchesNie(s) && MatchesNif(s) && ValidateNif(s).isValid
  {
    assert s[..8] == "37277293";
    DigitsOf37277293();
  }

  /** 37277293 mod 23 = 20, whose letter is 'C'. */
  lemma ExampleNif()
    ensures Validate("37277293C") == CifValidationResult(true, "37277293C", Nif, None, None)
  {
    ExampleNifParts("37277293C");
    ValidateClean("37277293C");
  }

  lemma ExampleNieParts(s: string)
    requires s == "X3263669S"
    ensures forall i :: 0 <= i < |s| ==> IsDigit(s[i]) || IsUpperLetter(s[i])
    ensures MatchesNie(s) && ValidateNie(s).isValid
  {
    assert [NiePrefixDigit(s[0])] + s[1..8] == "03263669";
    DigitsOf03263669();
  }

  /** X maps to 0: 03263669 mod 23 = 15, whose letter is 'S'. */
  lemma ExampleNie()
    ensures Validate("X3263669S") == CifValidationResult(true, "X3263669S", Nie, None, None)
  {
    ExampleNieParts("X3263669S");
    ValidateClean("X3263669S");
  }

  lemma CifBodyTotal()
    ensures CifTotal("1234567") == 26
  {
  }

  lemma ExampleCifParts(s: string)
    requires s in {"A12345674", "B12345674", "B12345675"}
    ensures forall i :: 0 <= i < |s| ==> IsDigit(s[i]) || IsUpperLetter(s[i])
    ensures !MatchesNie(s) && !MatchesNif(s) && MatchesCif(s)
    ensures ExpectedCifControl(s) == "4"
  {
    assert s[1..8] == "1234567";
    CifBodyTotal();
    assert NatText(4) == "4";
  }

  /** Body 1234567: 2+4+6 plus the doubled digit sums 2+6+1+5 is 26, so the
      control digit is 4. */
  lemma ExampleCif()
    ensures Validate("A12345674") == CifValidationResult(true, "A12345674", Cif, Some("Sociedad An\U{00F3}nima"), None)
    ensures Validate("B12345674") == CifValidationResult(true, "B12345674", Cif, Some("Sociedad Limitada"), None)
    ensures Validate("B12345675").error == Some(InvalidChecksum)
  {
    ExampleCifParts("A12345674");
    ValidateClean("A12345674");
    ExampleCifParts("B12345674");
    ValidateClean("B12345674");
    ExampleCifParts("B12345675");
    ValidateClean("B12345675");
  }
}
