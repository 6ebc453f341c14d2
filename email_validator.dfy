/** Email validation: a syntax predicate standing for `EMAIL_REGEX`, the
    generic-mailbox test over `GENERIC_LOCAL_PARTS`, and the MX lookup, which
    is an oracle parameter (the DNS resolver is not modelled). */
module EmailValidator {
  import opened Wrappers
  import opened Text

  // ---------------------------------------------------------------------
  // EMAIL_REGEX
  // ---------------------------------------------------------------------

  /** `[a-zA-Z0-9._+-]` */
  predicate IsLocalChar(c: char) {
    IsAlnum(c) || c == '.' || c == '_' || c == '+' || c == '-'
  }

  /** Local part `[a-zA-Z0-9][a-zA-Z0-9._+-]*`. */
  predicate IsLocalPart(s: string) {
    |s| > 0 && IsAlnum(s[0]) && forall i :: 1 <= i < |s| ==> IsLocalChar(s[i])
  }

  /** A domain label `[a-zA-Z0-9]([a-zA-Z0-9-]{0,61}[a-zA-Z0-9])?`: 1 to 63
      characters, alphanumeric at both ends, hyphens allowed inside. */
  predicate IsLabel(s: string) {
    1 <= |s| <= 63 && IsAlnum(s[0]) && IsAlnum(s[|s| - 1])
    && forall i :: 0 < i < |s| - 1 ==> IsAlnum(s[i]) || s[i] == '-'
  }

  /** Top-level domain `[a-zA-Z]{2,}`. */
  predicate IsTld(s: string) {
    |s| >= 2 && forall i :: 0 <= i < |s| ==> IsLetter(s[i])
  }

  /** Domain `label(\.label)*\.tld`. A label holds no dot, so the first
      label ends at the first dot and the rest is either the TLD or again a
      dotted domain. */
  predicate IsDomain(d: string)
    decreases |d|
  {
    var k := IndexOf(d, '.');
    k < |d| && IsLabel(d[..k]) && (IsTld(d[k + 1..]) || IsDomain(d[k + 1..]))
  }

  /** The whole address: no character of the local part is '@', so it ends
      at the first '@'. */
  predicate EmailShape(s: string) {
    var k := IndexOf(s, '@');
    k < |s| && IsLocalPart(s[..k]) && IsDomain(s[k + 1..])
  }

  /** `EMAIL_REGEX.match(s)`: the pattern ends in `$`, which also accepts one
      trailing newline. */
  predicate MatchesEmailRegex(s: string) {
    EmailShape(s) || (|s| > 0 && s[|s| - 1] == '\n' && EmailShape(s[..|s| - 1]))
  }

  // ---------------------------------------------------------------------
  // Generic mailboxes
  // ---------------------------------------------------------------------

  const GenericLocalParts: set<string> := {
    "info", "contact", "contacto", "admin", "administrator", "noreply", "no-reply",
    "support", "soporte", "help", "ayuda", "ventas", "comercial", "sales",
    "marketing", "webmaster", "postmaster", "abuse", "privacy", "legal"
  }

  /** A generic word, optionally followed only by digits ("info", "info2"). */
  predicate IsGenericLocal(local: string) {
    exists g :: g in GenericLocalParts && StartsWith(local, g) && AllDigits(local[|g|..])
  }

  /** The text before the first '@' (`email.split("@")[0]`). */
  function LocalPart(email: string): (l: string)
    ensures |l| <= |email| && l == email[..|l|] && '@' !in l
    ensures |l| == |email| || email[|l|] == '@'
  {
    email[..IndexOf(email, '@')]
  }

  /** `_is_generic_email`: no '@' at all counts as generic. */
  predicate IsGenericEmail(email: string) {
    email == [] || '@' !in email || IsGenericLocal(Strip(Lower(LocalPart(email))))
  }

  // ---------------------------------------------------------------------
  // MX oracle
  // ---------------------------------------------------------------------

  /** What the resolver does for an MX query on a domain. */
  datatype MxOutcome =
    | Answers(count: nat)       // resolve() returned `count` records
    | NoAnswer                  // dns.resolver.NoAnswer
    | NxDomain                  // dns.resolver.NXDOMAIN
    | Timeout                   // dns.resolver.Timeout
    | DnsError(message: string) // any other DNSException
    | Unexpected(message: string)

  datatype MxCheck = MxCheck(hasMx: bool, error: Option<string>)

  /** `_check_mx_record` given the resolver's behaviour. */
  function CheckMx(o: MxOutcome): (r: MxCheck)
    ensures r.hasMx <==> o.Answers? && o.count > 0
    ensures r.hasMx ==> r.error == None
    ensures o.Answers? || o.NoAnswer? ==> r.error == None
    ensures o.NxDomain? ==> r.error == Some("DOMAIN_NOT_FOUND")
    ensures o.Timeout? ==> r.error == Some("DNS_TIMEOUT")
    ensures o.DnsError? ==> r.error == Some("DNS_ERROR: " + o.message)
    ensures o.Unexpected? ==> r.error == Some("UNEXPECTED_ERROR: " + o.message)
  {
    match o
    case Answers(n) => MxCheck(n > 0, None)
    case NoAnswer => MxCheck(false, None)
    case NxDomain => MxCheck(false, Some("DOMAIN_NOT_FOUND"))
    case Timeout => MxCheck(false, Some("DNS_TIMEOUT"))
    case DnsError(m) => MxCheck(false, Some("DNS_ERROR: " + m))
    case Unexpected(m) => MxCheck(false, Some("UNEXPECTED_ERROR: " + m))
  }

  // ---------------------------------------------------------------------
  // validate
  // ---------------------------------------------------------------------

  datatype EmailValidationResult = EmailValidationResult(
    valid: bool, deliverable: bool, generic: bool, error: Option<string>)

  /** `_validate_syntax`. */
  predicate SyntaxOk(email: string) {
    email != [] && MatchesEmailRegex(Lower(Strip(email)))
  }

  /** `email.split("@")[1]`: the text between the first and second '@'. */
  function DomainPart(email: string): string
    requires '@' in email
  {
    var rest := email[IndexOf(email, '@') + 1..];
    rest[..IndexOf(rest, '@')]
  }

  /** The normalisation `validate` applies before every check. */
  function Normalize(email: string): string {
    Lower(Strip(email))
  }

  /** `validate` after the emptiness test and `strip().lower()`. */
  function Classify(e: string, mx: string -> MxOutcome): (r: EmailValidationResult)
    requires Normalize(e) == e
    ensures !SyntaxOk(e) ==> r == EmailValidationResult(false, false, false, Some("INVALID_SYNTAX"))
    ensures r.valid <==> SyntaxOk(e)
    ensures r.valid ==> (r.generic <==> IsGenericEmail(e))
    ensures r.valid && r.generic ==> r == EmailValidationResult(true, false, true, Some("GENERIC_EMAIL"))
    ensures r.valid && !r.generic ==> '@' in e && r.deliverable == CheckMx(mx(DomainPart(e))).hasMx
    ensures r.valid && !r.generic && !r.deliverable ==> r.error == CheckMx(mx(DomainPart(e))).error
    ensures r.deliverable ==> r.valid && !r.generic && r.error == None
  {
    if !SyntaxOk(e) then EmailValidationResult(false, false, false, Some("INVALID_SYNTAX"))
    else if IsGenericEmail(e) then EmailValidationResult(true, false, true, Some("GENERIC_EMAIL"))
    else
      assert '@' in e by { RegexHasAt(e); }
      var c := CheckMx(mx(DomainPart(e)));
      EmailValidationResult(true, c.hasMx, false, if !c.hasMx then c.error else None)
  }

  /** `EmailValidator.validate`, with `mx` answering the MX query of a domain. */
  function Validate(email: string, mx: string -> MxOutcome): (r: EmailValidationResult)
    ensures email == [] ==> r == EmailValidationResult(false, false, true, Some("EMPTY_EMAIL"))
    ensures email != [] ==> r == Classify(Normalize(email), mx)
  {
    if email == [] then EmailValidationResult(false, false, true, Some("EMPTY_EMAIL"))
    else
      NormalizeIdempotent(email);
      Classify(Normalize(email), mx)
  }

  // ---------------------------------------------------------------------
  // Properties
  // ---------------------------------------------------------------------

  lemma ShapeHasAt(s: string)
    requires EmailShape(s)
    ensures '@' in s
  {
    assert s[IndexOf(s, '@')] == '@';
  }

  /** `strip().lower()` is idempotent, so `_validate_syntax`'s second pass
      changes nothing. */
  lemma NormalizeIdempotent(email: string)
    ensures Normalize(Normalize(email)) == Normalize(email)
  {
    StripLower(Strip(email));
    StripIdempotent(email);
    LowerIdempotent(Strip(email));
  }

  /** On normalised text the syntax test is the regex alone. */
  lemma SyntaxOkNormalized(email: string)
    ensures SyntaxOk(Normalize(email)) <==> Normalize(email) != [] && MatchesEmailRegex(Normalize(email))
  {
    NormalizeIdempotent(email);
  }

  /** Every address the regex accepts holds an '@'. */
  lemma RegexHasAt(s: string)
    requires MatchesEmailRegex(s)
    ensures '@' in s
  {
    if EmailShape(s) {
      ShapeHasAt(s);
    } else {
      ShapeHasAt(s[..|s| - 1]);
    }
  }

  /** A domain holds no '@'. */
  lemma {:induction false} DomainHasNoAt(d: string)
    requires IsDomain(d)
    ensures '@' !in d
    decreases |d|
  {
    var k := IndexOf(d, '.');
    var name, rest := d[..k], d[k + 1..];
    assert forall i :: 0 <= i < |name| ==> IsAlnum(name[i]) || name[i] == '-';
    if !IsTld(rest) {
      DomainHasNoAt(rest);
    }
    assert d == name + "." + rest;
  }

  /** An accepted address holds exactly one '@', so the MX query is made for
      the whole text after it. */
  lemma ShapeDomain(s: string)
    requires EmailShape(s)
    ensures '@' in s
    ensures DomainPart(s) == s[IndexOf(s, '@') + 1..]
  {
    ShapeHasAt(s);
    var rest := s[IndexOf(s, '@') + 1..];
    DomainHasNoAt(rest);
  }

  /** Empty input short-circuits before any check. */
  lemma EmptyEmail(mx: string -> MxOutcome)
    ensures Validate("", mx) == EmailValidationResult(false, false, true, Some("EMPTY_EMAIL"))
  {
  }

  /** Whitespace-only input is not empty to the first test, so it reaches
      the syntax check and fails there rather than as "EMPTY_EMAIL". */
  lemma BlankEmailIsInvalidSyntax(email: string, mx: string -> MxOutcome)
    requires email != [] && Strip(email) == []
    ensures Validate(email, mx) == EmailValidationResult(false, false, false, Some("INVALID_SYNTAX"))
  {
    assert Normalize(email) == [];
  }

  /** Validation ignores letter case: upper-casing the input gives the same result. */
  lemma CaseInsensitive(email: string, mx: string -> MxOutcome)
    ensures Validate(Upper(email), mx) == Validate(email, mx)
  {
    StripUpper(email);
    LowerOfUpper(Strip(email));
    assert Normalize(Upper(email)) == Normalize(email);
  }

  /** Generic addresses never reach the MX oracle. */
  lemma GenericSkipsMx(email: string, mx1: string -> MxOutcome, mx2: string -> MxOutcome)
    requires IsGenericEmail(Normalize(email))
    ensures Validate(email, mx1) == Validate(email, mx2)
  {
    NormalizeIdempotent(email);
  }

  /** A well-formed, non-generic address is deliverable exactly when the MX
      query for its domain returns records, and carries no error exactly when
      the query got an answer (with or without records). */
  lemma DeliverableIffMx(email: string, mx: string -> MxOutcome)
    requires EmailShape(Normalize(email)) && !IsGenericEmail(Normalize(email))
    ensures var e := Normalize(email);
      Validate(email, mx).valid && !Validate(email, mx).generic
      && (Validate(email, mx).deliverable <==> mx(e[IndexOf(e, '@') + 1..]).Answers? && mx(e[IndexOf(e, '@') + 1..]).count > 0)
      && (Validate(email, mx).error == None <==> mx(e[IndexOf(e, '@') + 1..]).Answers? || mx(e[IndexOf(e, '@') + 1..]).NoAnswer?)
  {
    var e := Normalize(email);
    NormalizeIdempotent(email);
    ShapeDomain(e);
    assert Normalize([]) == [];
  }

  /** An MX query that answers nothing leaves the address valid, not
      deliverable, and without an error message. */
  lemma NoAnswerHasNoError(email: string, mx: string -> MxOutcome)
    requires EmailShape(Normalize(email)) && !IsGenericEmail(Normalize(email))
    requires mx(DomainPart(Normalize(email))) == NoAnswer
    ensures Validate(email, mx) == EmailValidationResult(true, false, false, None)
  {
    var e := Normalize(email);
    NormalizeIdempotent(email);
    assert Normalize([]) == [];
    assert email != [];
    assert SyntaxOk(e);
    assert CheckMx(mx(DomainPart(e))) == MxCheck(false, None);
  }

  /** A generic word followed by digits is generic. */
  lemma GenericLocalExamples()
    ensures IsGenericLocal("info2")
    ensures IsGenericLocal("contacto")
  {
    assert "info" in GenericLocalParts && StartsWith("info2", "info") && AllDigits("info2"[4..]);
    assert "contacto" in GenericLocalParts && StartsWith("contacto", "contacto") && AllDigits("contacto"[8..]);
  }

  /** A longer word that merely starts with a generic one is not generic. */
  lemma InformationNotGeneric(l: string)
    requires l == "information"
    ensures !IsGenericLocal(l)
  {
    forall g | g in GenericLocalParts && StartsWith(l, g)
      ensures g == "info"
    {
      assert g[0] == 'i';
    }
    assert !IsDigit(l[4]);
    assert l[4..][0] == l[4];
  }

  lemma ExampleNormalized(s: string)
    requires s == "info2@x.es"
    ensures Normalize(s) == s
  {
    assert forall i :: 0 <= i < |s| ==> !IsSpace(s[i]) && !IsUpperLetter(s[i]);
    StripUnchanged(s);
  }

  /** The first occurrence of `c` is at `k` when `s[k] == c` and no earlier
      character is `c`. */
  lemma IndexOfIs(s: string, c: char, k: nat)
    requires k < |s| && s[k] == c && forall i :: 0 <= i < k ==> s[i] != c
    ensures IndexOf(s, c) == k
  {
  }

  lemma ExampleDomain(d: string)
    requires d == "x.es"
    ensures IsDomain(d)
  {
    IndexOfIs(d, '.', 1);
    assert d[..1] == "x" && d[2..] == "es";
    assert IsLabel(d[..1]);
    assert IsTld(d[2..]);
  }

  lemma ExampleLocal(l: string)
    requires l == "info2"
    ensures IsLocalPart(l)
  {
    assert IsAlnum(l[0]);
  }

  lemma ExampleShape(s: string)
    requires s == "info2@x.es"
    ensures EmailShape(s)
  {
    IndexOfIs(s, '@', 5);
    assert s[..5] == "info2";
    assert s[6..] == "x.es";
    ExampleLocal(s[..5]);
    ExampleDomain(s[6..]);
  }

  lemma ExampleGeneric(s: string)
    requires s == "info2@x.es"
    ensures IsGenericEmail(s)
  {
    ExampleLocalPart(s);
    var l := LocalPart(s);
    assert Lower(l) == l;
    StripUnchanged(l);
    GenericLocalExamples();
    assert '@' in s;
  }

  lemma ExampleLocalPart(s: string)
    requires s == "info2@x.es"
    ensures LocalPart(s) == "info2"
  {
    IndexOfIs(s, '@', 5);
  }

  /** "info2@x.es" is well formed, and generic, so it is valid but not
      deliverable whatever the MX oracle says. */
  lemma GenericAddressExample(s: string, mx: string -> MxOutcome)
    requires s == "info2@x.es"
    ensures Validate(s, mx) == EmailValidationResult(true, false, true, Some("GENERIC_EMAIL"))
  {
    ExampleNormalized(s);
    ExampleShape(s);
    ExampleGeneric(s);
  }

  /** A one-letter top-level domain is refused. */
  lemma ShortTldRejected(s: string)
    requires s == "a@b.c"
    ensures !EmailShape(s)
  {
    assert IndexOf(s, '@') == 1;
    assert s[2..] == "b.c";
    assert IndexOf("b.c", '.') == 1;
    assert "b.c"[2..] == "c";
    assert IndexOf("c", '.') == 1;
  }
}
