/** Spanish phone numbers: separators and the +34 country prefix are removed,
    the rest must be a fixed number of digits, and the leading digits classify
    the number as special, mobile or landline. */
module PhoneValidator {
  import opened Wrappers
  import opened Text

  /** The `phone_validation.spain` configuration section. */
  datatype PhoneConfig = PhoneConfig(
    mobilePrefixes: seq<string>,
    landlinePrefixes: seq<string>,
    specialPrefixes: seq<string>,
    length: int,
    internationalPrefix: string)

  /** The values used when the section or the file is absent. */
  const DefaultConfig: PhoneConfig :=
    PhoneConfig(["6", "7"], ["8", "9"], ["800", "900", "901", "902", "905"], 9, "+34")

  datatype PhoneType = Mobile | Landline | Special | InvalidType
  {
    function Name(): string {
      match this
      case Mobile => "mobile"
      case Landline => "landline"
      case Special => "special"
      case InvalidType => "invalid"
    }
  }

  datatype PhoneError = EmptyInput | InvalidCharacters | InvalidLength(expected: int, got: nat) | InvalidPrefix
  {
    function Code(): string {
      match this
      case EmptyInput => "EMPTY_INPUT"
      case InvalidCharacters => "INVALID_CHARACTERS"
      case InvalidLength(expected, got) =>
        "INVALID_LENGTH (expected " + IntText(expected) + ", got " + NatText(got) + ")"
      case InvalidPrefix => "INVALID_PREFIX"
    }
  }

  datatype PhoneValidationResult = PhoneValidationResult(
    isValid: bool,
    formattedPhone: string,
    phoneType: PhoneType,
    internationalFormat: string,
    error: Option<PhoneError>)

  /** The characters of the class `[\s\-\(\)\.]`. */
  predicate IsPhoneSeparator(c: char) {
    IsSpace(c) || c == '-' || c == '(' || c == ')' || c == '.'
  }

  /** Drops one leading "+34", else "0034", else "34" when eleven characters remain. */
  function StripCountryPrefix(n: string): (r: string)
    ensures |r| <= |n|
    ensures r == n[|n| - |r|..]
    ensures StartsWith(n, "+34") ==> |r| == |n| - 3
    ensures StartsWith(n, "0034") ==> |r| == |n| - 4
    ensures StartsWith(n, "34") && |n| == 11 ==> |r| == 9
    ensures !StartsWith(n, "+34") && !StartsWith(n, "0034") && !(StartsWith(n, "34") && |n| == 11) ==> r == n
  {
    assert StartsWith(n, "+34") ==> n[..3][0] == n[0] == '+';
    assert StartsWith(n, "0034") ==> n[..4][0] == n[0] == '0';
    assert StartsWith(n, "34") ==> n[..2][0] == n[0] == '3';
    if StartsWith(n, "+34") then n[3..]
    else if StartsWith(n, "0034") then n[4..]
    else if StartsWith(n, "34") && |n| == 11 then n[2..]
    else n
  }

  /** Drops every separator, then one country prefix; the initial `strip()`
      is subsumed by the separator removal. */
  function Normalize(phone: string): (r: string)
    ensures |r| <= |phone|
    ensures r == StripCountryPrefix(Remove(phone, IsPhoneSeparator))
    ensures forall i :: 0 <= i < |r| ==> !IsPhoneSeparator(r[i])
  {
    RemoveStrip(phone, IsPhoneSeparator);
    StripCountryPrefix(Remove(Strip(phone), IsPhoneSeparator))
  }

  /** `digits[:k]`, which Python clamps to the string's length. */
  function Take(s: string, k: nat): (r: string)
    ensures |r| == if |s| < k then |s| else k
    ensures r == s[..|r|]
  {
    if |s| < k then s else s[..k]
  }

  /** The leading digit of a number of the configured length is always read,
      so a configured length of zero with an empty input is excluded. */
  function DetectType(cfg: PhoneConfig, digits: string): (t: PhoneType)
    requires |digits| != cfg.length || |digits| > 0
    ensures |digits| != cfg.length ==> t == InvalidType
    ensures t == Special <==> |digits| == cfg.length && Take(digits, 3) in cfg.specialPrefixes
    ensures t == Mobile <==> |digits| == cfg.length && Take(digits, 3) !in cfg.specialPrefixes
                             && [digits[0]] in cfg.mobilePrefixes
    ensures t == Landline <==> |digits| == cfg.length && Take(digits, 3) !in cfg.specialPrefixes
                               && [digits[0]] !in cfg.mobilePrefixes && [digits[0]] in cfg.landlinePrefixes
  {
    if |digits| != cfg.length then InvalidType
    else if Take(digits, 3) in cfg.specialPrefixes then Special
    else if [digits[0]] in cfg.mobilePrefixes then Mobile
    else if [digits[0]] in cfg.landlinePrefixes then Landline
    else InvalidType
  }

  /** "+34 DDD DDD DDD" for nine digits, otherwise the prefix, a space and the digits. */
  function FormatInternational(cfg: PhoneConfig, digits: string): (f: string)
    ensures StartsWith(f, cfg.internationalPrefix + " ")
    ensures |digits| == 9 ==> |f| == |cfg.internationalPrefix| + 12
    ensures |digits| != 9 ==> f == cfg.internationalPrefix + " " + digits
  {
    if |digits| != 9 then cfg.internationalPrefix + " " + digits
    else cfg.internationalPrefix + " " + digits[..3] + " " + digits[3..6] + " " + digits[6..]
  }

  function Validate(cfg: PhoneConfig, phone: string): (r: PhoneValidationResult)
    ensures r.isValid <==> r.error == None
    ensures r.isValid <==> r.phoneType != InvalidType
    ensures !r.isValid ==> r.internationalFormat == []
    ensures r.error == Some(EmptyInput) <==> Strip(phone) == []
    ensures r.error == Some(EmptyInput) ==> r.formattedPhone == []
    ensures r.error != Some(EmptyInput) ==> r.formattedPhone == Normalize(phone)
    ensures r.error == Some(InvalidCharacters) <==> Strip(phone) != [] && !IsDigits(Normalize(phone))
    ensures r.error.Some? && r.error.value.InvalidLength? <==>
      Strip(phone) != [] && IsDigits(Normalize(phone)) && |Normalize(phone)| != cfg.length
    ensures r.error.Some? && r.error.value.InvalidLength? ==>
      r.error.value == InvalidLength(cfg.length, |Normalize(phone)|)
    ensures r.error == Some(InvalidPrefix) <==>
      Strip(phone) != [] && IsDigits(Normalize(phone)) && |Normalize(phone)| == cfg.length
      && DetectType(cfg, Normalize(phone)) == InvalidType
    ensures r.isValid ==> IsDigits(r.formattedPhone) && |r.formattedPhone| == cfg.length
    ensures r.isValid ==> r.phoneType == DetectType(cfg, r.formattedPhone)
    ensures r.isValid ==> r.internationalFormat == FormatInternational(cfg, r.formattedPhone)
  {
    if Strip(phone) == [] then PhoneValidationResult(false, "", InvalidType, "", Some(EmptyInput))
    else
      var n := Normalize(phone);
      if !IsDigits(n) then PhoneValidationResult(false, n, InvalidType, "", Some(InvalidCharacters))
      else if |n| != cfg.length then
        PhoneValidationResult(false, n, InvalidType, "", Some(InvalidLength(cfg.length, |n|)))
      else
        var t := DetectType(cfg, n);
        if t == InvalidType then PhoneValidationResult(false, n, InvalidType, "", Some(InvalidPrefix))
        else PhoneValidationResult(true, n, t, FormatInternational(cfg, n), None)
  }

  // ---------------------------------------------------------------------
  // Properties
  // ---------------------------------------------------------------------

  /** A digit string of the configured length whose prefix is neither
      "+34", "0034" nor an eleven-digit "34…" is kept as it is. */
  lemma NormalizeDigits(digits: string)
    requires AllDigits(digits)
    requires !StartsWith(digits, "0034") && !(StartsWith(digits, "34") && |digits| == 11)
    ensures Normalize(digits) == digits
  {
    if digits != [] {
      StripUnchanged(digits);
      assert digits[0] != '+';
    }
    RemoveNothing(digits, IsPhoneSeparator);
    assert Remove(Strip(digits), IsPhoneSeparator) == digits;
    assert !StartsWith(digits, "+34");
  }

  /** The nine-digit international format is exactly the digits grouped
      3-3-3 after the prefix: removing its spaces gives the digits back. */
  lemma FormatInternationalGroups(cfg: PhoneConfig, digits: string)
    requires |digits| == 9 && AllDigits(digits)
    ensures var f := FormatInternational(cfg, digits);
      var p := |cfg.internationalPrefix| + 1;
      f[p..] == digits[..3] + " " + digits[3..6] + " " + digits[6..]
      && Remove(f[p..], IsSpace) == digits
  {
    var f := FormatInternational(cfg, digits);
    var p := |cfg.internationalPrefix| + 1;
    var g := digits[..3] + " " + digits[3..6] + " " + digits[6..];
    assert f == (cfg.internationalPrefix + " ") + g;
    assert f[p..] == g;
    GroupsDropSpaces(digits);
  }

  lemma GroupsDropSpaces(digits: string)
    requires |digits| == 9 && AllDigits(digits)
    ensures Remove(digits[..3] + " " + digits[3..6] + " " + digits[6..], IsSpace) == digits
  {
    var a, b, c := digits[..3], digits[3..6], digits[6..];
    RemoveNothing(a, IsSpace);
    RemoveNothing(b, IsSpace);
    RemoveNothing(c, IsSpace);
    RemoveAppend(a, " ", IsSpace);
    assert Remove(a + " ", IsSpace) == a;
    RemoveAppend(a + " ", b, IsSpace);
    assert Remove(a + " " + b, IsSpace) == a + b;
    RemoveAppend(a + " " + b, " ", IsSpace);
    assert Remove(a + " " + b + " ", IsSpace) == a + b;
    RemoveAppend(a + " " + b + " ", c, IsSpace);
    assert digits == a + b + c;
  }

  /** Configurations under which a formatted number cannot be mistaken for
      one carrying a country prefix: no listed prefix starts with '0', and
      with eleven-digit numbers none starts with '3' either. */
  predicate PrefixesSafe(cfg: PhoneConfig) {
    (forall p :: p in cfg.mobilePrefixes + cfg.landlinePrefixes + cfg.specialPrefixes ==>
      p != [] && p[0] != '0' && (cfg.length == 11 ==> p[0] != '3'))
  }

  lemma DefaultConfigSafe()
    ensures PrefixesSafe(DefaultConfig)
  {
  }

  /** Revalidating the formatted number of a valid result gives the same
      result: the digits carry no separators and no country prefix. */
  lemma RevalidateValid(cfg: PhoneConfig, phone: string)
    requires PrefixesSafe(cfg)
    requires Validate(cfg, phone).isValid
    ensures Validate(cfg, Validate(cfg, phone).formattedPhone) == Validate(cfg, phone)
  {
    var r := Validate(cfg, phone);
    var d := r.formattedPhone;
    var t := DetectType(cfg, d);
    assert d[0] != '0' && (cfg.length == 11 ==> d[0] != '3') by {
      var all := cfg.mobilePrefixes + cfg.landlinePrefixes + cfg.specialPrefixes;
      if t == Special {
        assert Take(d, 3) in all;
        assert Take(d, 3)[0] == d[0];
      } else if t == Mobile {
        assert [d[0]] in all;
      } else {
        assert [d[0]] in all;
      }
    }
    NormalizeDigits(d);
    StripUnchanged(d);
  }

  /** Special prefixes win over the mobile and landline ones: 900123456
      starts with 9 but is special. */
  lemma SpecialBeforeLandline()
    ensures DetectType(DefaultConfig, "900123456") == Special
    ensures DetectType(DefaultConfig, "912345678") == Landline
    ensures DetectType(DefaultConfig, "612345678") == Mobile
  {
    assert Take("900123456", 3) == "900";
    assert Take("912345678", 3) == "912";
    assert Take("612345678", 3) == "612";
  }

  /** Under the defaults a nine-digit number starting with 0 to 5 has no
      valid prefix. */
  lemma LowDigitsInvalidPrefix(digits: string)
    requires |digits| == 9 && AllDigits(digits) && digits[0] <= '5'
    ensures DetectType(DefaultConfig, digits) == InvalidType
  {
    assert Take(digits, 3)[0] == digits[0];
  }

  /** A string with a non-blank character is not blank. */
  lemma NotBlank(s: string, k: nat)
    requires k < |s| && !IsSpace(s[k])
    ensures Strip(s) != []
  {
    StripEmptyIff(s);
  }

  /** The result depends on the input only through its blankness and its
      normalised form. */
  lemma ValidateByNormalize(cfg: PhoneConfig, x: string, y: string)
    requires Strip(x) != [] && Strip(y) != [] && Normalize(x) == Normalize(y)
    ensures Validate(cfg, x) == Validate(cfg, y)
  {
  }

  lemma RemoveSeparator(a: string, c: char, b: string)
    requires IsPhoneSeparator(c)
    ensures Remove(a + [c] + b, IsPhoneSeparator) == Remove(a + b, IsPhoneSeparator)
  {
    RemoveAppend(a + [c], b, IsPhoneSeparator);
    RemoveAppend(a, [c], IsPhoneSeparator);
    RemoveAppend(a, b, IsPhoneSeparator);
    assert Remove([c], IsPhoneSeparator) == [];
  }

  lemma NormalizeSeparator(a: string, c: char, b: string)
    requires IsPhoneSeparator(c)
    ensures Normalize(a + [c] + b) == Normalize(a + b)
  {
    RemoveSeparator(a, c, b);
  }

  lemma NotBlankWithSeparator(a: string, c: char, b: string)
    requires Strip(a + b) != []
    ensures Strip(a + [c] + b) != []
  {
    StripEmptyIff(a + b);
    var k :| 0 <= k < |a + b| && !IsSpace((a + b)[k]);
    if k < |a| {
      NotBlank(a + [c] + b, k);
    } else {
      NotBlank(a + [c] + b, k + 1);
    }
  }

  /** Inserting one separator anywhere in a non-blank number changes nothing:
      "+34 612 34 56 78" validates exactly like "+34612345678". */
  lemma SeparatorInsensitive(cfg: PhoneConfig, a: string, c: char, b: string)
    requires IsPhoneSeparator(c) && Strip(a + b) != []
    ensures Validate(cfg, a + [c] + b) == Validate(cfg, a + b)
  {
    NotBlankWithSeparator(a, c, b);
    NormalizeSeparator(a, c, b);
    ValidateByNormalize(cfg, a + [c] + b, a + b);
  }

  /** "+34", "0034" and "34" in front of nine digits are all removed, so the
      four spellings of a number validate identically. */
  lemma PrefixSpellings(cfg: PhoneConfig, d: string)
    requires |d| == 9 && AllDigits(d) && !StartsWith(d, "0034")
    ensures Normalize("+34" + d) == d && Normalize("0034" + d) == d
    ensures Normalize("34" + d) == d && Normalize(d) == d
    ensures Validate(cfg, "+34" + d) == Validate(cfg, d)
    ensures Validate(cfg, "0034" + d) == Validate(cfg, d)
    ensures Validate(cfg, "34" + d) == Validate(cfg, d)
  {
    NormalizeDigits(d);
    NotBlank(d, 0);
    PrefixNormalizes("+34", d);
    PrefixNormalizes("0034", d);
    PrefixNormalizes("34", d);
    ValidateByNormalize(cfg, "+34" + d, d);
    ValidateByNormalize(cfg, "0034" + d, d);
    ValidateByNormalize(cfg, "34" + d, d);
  }

  lemma NoSeparatorsIn(p: string, d: string)
    requires forall i :: 0 <= i < |p| ==> p[i] == '+' || IsDigit(p[i])
    requires AllDigits(d)
    ensures Remove(p + d, IsPhoneSeparator) == p + d
  {
    var s := p + d;
    forall i | 0 <= i < |s|
      ensures !IsPhoneSeparator(s[i])
    {
      if i >= |p| { assert s[i] == d[i - |p|]; }
    }
    RemoveNothing(s, IsPhoneSeparator);
  }

  lemma PrefixNormalizes(p: string, d: string)
    requires p == "+34" || p == "0034" || p == "34"
    requires |d| == 9 && AllDigits(d)
    ensures Normalize(p + d) == d && Strip(p + d) != []
  {
    var s := p + d;
    NotBlank(s, 0);
    NoSeparatorsIn(p, d);
    assert Remove(s, IsPhoneSeparator) == s;
    StripsCountryPrefix(p, d);
  }

  lemma StripsCountryPrefix(p: string, d: string)
    requires p == "+34" || p == "0034" || p == "34"
    requires |d| == 9
    ensures StripCountryPrefix(p + d) == d
  {
    var s := p + d;
    assert s[..|p|] == p;
    assert s[|p|..] == d;
    if p != "+34" {
      assert s[0] != '+';
    }
    if p == "34" {
      assert s[0] != '0';
    }
  }

  lemma MobileExampleParts(s: string)
    requires s == "612345678"
    ensures Strip(s) != [] && Normalize(s) == s && IsDigits(s) && |s| == 9
    ensures DetectType(DefaultConfig, s) == Mobile
    ensures FormatInternational(DefaultConfig, s) == "+34 612 345 678"
  {
    assert s[..4][0] == '6';
    NormalizeDigits(s);
    NotBlank(s, 0);
    assert Take(s, 3) == "612";
    assert s[..3] == "612" && s[3..6] == "345" && s[6..] == "678";
    assert FormatInternational(DefaultConfig, s) == "+34" + " " + "612" + " " + "345" + " " + "678";
  }

  /** 612345678 is a mobile number and is formatted 3-3-3. */
  lemma MobileExample()
    ensures Validate(DefaultConfig, "612345678") == PhoneValidationResult(true, "612345678", Mobile, "+34 612 345 678", None)
  {
    MobileExampleParts("612345678");
  }

  lemma ShortNumberParts(s: string)
    requires s == "12345"
    ensures Strip(s) != [] && Normalize(s) == s && IsDigits(s) && |s| == 5
  {
    assert s[..4][0] == '1';
    NormalizeDigits(s);
    NotBlank(s, 0);
  }

  /** A short number reports the configured and the actual length. */
  lemma ShortNumber()
    ensures Validate(DefaultConfig, "12345").error == Some(InvalidLength(9, 5))
    ensures InvalidLength(9, 5).Code() == "INVALID_LENGTH (expected 9, got 5)"
  {
    ShortNumberParts("12345");
    ShortNumberCode();
  }

  lemma ShortNumberCode()
    ensures InvalidLength(9, 5).Code() == "INVALID_LENGTH (expected 9, got 5)"
  {
    assert IntText(9) == [DigitChar(9)] == "9";
    assert NatText(5) == [DigitChar(5)] == "5";
  }

  /** Blank input gives the EMPTY_INPUT record. */
  lemma EmptyInputResult(cfg: PhoneConfig, phone: string)
    requires forall i :: 0 <= i < |phone| ==> IsSpace(phone[i])
    ensures Validate(cfg, phone) == PhoneValidationResult(false, "", InvalidType, "", Some(EmptyInput))
  {
    StripEmptyIff(phone);
  }
}
