/** Last-resort CIF provider: a format check by regular expression, with no
    control-character check and no registry lookup. */
module RegexCifValidator {
  import opened Wrappers
  import opened Text
  import opened ApiBase

  const SourceName: string := "regex"

  /** First character class `[A-HJNP-SUVW]`. */
  predicate IsOrganisationLetter(c: char) {
    ('A' <= c <= 'H') || c == 'J' || c == 'N' || ('P' <= c <= 'S') || c == 'U' || c == 'V' || c == 'W'
  }

  /** Last character class `[0-9A-J]`. */
  predicate IsControlChar(c: char) {
    IsDigit(c) || ('A' <= c <= 'J')
  }

  /** The body of `^[A-HJNP-SUVW]\d{7}[0-9A-J]`. */
  predicate CifShape(s: string) {
    |s| == 9 && IsOrganisationLetter(s[0]) && AllDigits(s[1..8]) && IsControlChar(s[8])
  }

  /** Python's `$` also matches before one final newline. */
  predicate MatchesCifRegex(s: string) {
    CifShape(s) || (|s| == 10 && s[9] == '\n' && CifShape(s[..9]))
  }

  function Validate(cif: string): (r: CifResult)
    ensures r.valid <==> CifShape(UpperStripped(cif))
    ensures !r.inRegistry && r.razonSocial.None? && r.estado.None? && r.source == SourceName
    ensures r.extra == Some(map["normalized" := UpperStripped(cif)])
  {
    var normalized := UpperStripped(cif);
    NormalizedHasNoNewlineMatch(cif);
    CifResult(MatchesCifRegex(normalized), false, None, SourceName, None, Some(map["normalized" := normalized]))
  }

  /** A stripped value ends in a non-space, so the trailing-newline
      alternative of `$` never applies to it. */
  lemma NormalizedHasNoNewlineMatch(cif: string)
    ensures MatchesCifRegex(UpperStripped(cif)) <==> CifShape(UpperStripped(cif))
  {
    var n := UpperStripped(cif);
    var s := Strip(cif);
    if |n| == 10 {
      assert n[9] == UpperChar(s[9]);
      assert !IsSpace(s[9]);
    }
  }

  lemma NormalizeIdempotent(cif: string)
    ensures UpperStripped(UpperStripped(cif)) == UpperStripped(cif)
  {
    StripUpper(Strip(cif));
    StripIdempotent(cif);
    UpperIdempotent(Strip(cif));
  }

  /** Revalidating the normalised text gives the same verdict. */
  lemma ValidateNormalized(cif: string)
    ensures Validate(UpperStripped(cif)).valid == Validate(cif).valid
  {
    NormalizeIdempotent(cif);
  }

  /** Lower- and upper-case input are judged alike. */
  lemma CaseInsensitive(cif: string)
    ensures Validate(Lower(cif)) == Validate(cif)
  {
    StripLower(cif);
    UpperOfLower(Strip(cif));
  }

  /** Only the ends are stripped: a value with a space left inside is
      never valid. */
  lemma InnerSpaceInvalid(cif: string, k: nat)
    requires k < |UpperStripped(cif)| && UpperStripped(cif)[k] == ' '
    ensures !Validate(cif).valid
  {
    var n := UpperStripped(cif);
    if CifShape(n) {
      ShapeHasNoSpace(n);
    }
  }

  lemma ShapeHasNoSpace(s: string)
    requires CifShape(s)
    ensures forall k :: 0 <= k < |s| ==> s[k] != ' '
  {
    forall k | 0 <= k < |s|
      ensures s[k] != ' '
    {
      if 1 <= k < 8 {
        assert s[1..8][k - 1] == s[k];
      }
    }
  }

  /** Whatever passes has exactly nine characters. */
  lemma ValidHasNineChars(cif: string)
    requires Validate(cif).valid
    ensures |UpperStripped(cif)| == 9 && IsOrganisationLetter(UpperStripped(cif)[0])
  {
  }

  lemma PaddedLowerCaseExample(cif: string)
    requires cif == "  b12345678  "
    ensures UpperStripped(cif) == "B12345678"
    ensures Validate(cif).valid
  {
    var inner := "b12345678";
    assert cif == "  " + inner + "  ";
    StripPadded("  ", inner, "  ");
    assert UpperStripped(cif) == "B12345678";
    assert AllDigits("B12345678"[1..8]) by { assert "B12345678"[1..8] == "1234567"; }
  }

  lemma RejectedExamples(cif: string)
    requires cif in ["12345678", "X12345678", "B1234567", "B123456789", "B1234567X"]
    ensures !Validate(cif).valid
  {
    StripUnchanged(cif);
    UpperIdempotent(cif);
    assert UpperStripped(cif) == cif;
  }
}
