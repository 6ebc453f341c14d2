/** Result records shared by the pluggable tier-1 providers. */
module ApiBase {
  import opened Wrappers

  /** Outcome of one CIF provider: format validity, registry existence (`exists`),
      company name and state as reported, and the provider's name. `extra`
      carries provider-specific text fields. */
  datatype CifResult = CifResult(
    valid: bool,
    inRegistry: bool,
    razonSocial: Option<string>,
    source: string,
    estado: Option<string>,
    extra: Option<map<string, string>>)

  /** Outcome of one phone provider. */
  datatype PhoneValidation = PhoneValidation(
    valid: bool,
    formatted: Option<string>,
    phoneType: string,
    carrier: Option<string>,
    active: Option<bool>,
    extra: Option<map<string, string>>)
}
